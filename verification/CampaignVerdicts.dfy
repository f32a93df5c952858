/** Which generations a campaign labels, which it sets aside, and what each row and disagreement holds. */
module CampaignVerdicts {
  import opened Wrappers
  import opened Sorting
  import opened Labelling
  import opened LabelCampaign
  import opened CampaignTheorems

  // ---------------------------------------------------------------------------
  // The graders of a generation
  // ---------------------------------------------------------------------------

  /** Not the generator itself, and not of its stated model. */
  function MayGradeFor(generator: Client): Client -> bool {
    (grader: Client) =>
      grader.id != generator.id
      && !(grader.providerModel.Some? && grader.providerModel == generator.providerModel && grader.providerModel != Some(""))
  }

  /** The first of the permitted graders, as many as the option allows. */
  function Jury(c: Campaign, g: nat): seq<Client>
    requires g < |c.generators|
  {
    FirstOf(Filter(c.graders, MayGradeFor(c.generators[g])), c.options.maxGraders.GetOr(3))
  }

  lemma {:induction false} SameGraders(graders: seq<Client>, generator: Client)
    ensures Filter(graders, MayJudge(generator)) == Filter(graders, MayGradeFor(generator))
  {
    if |graders| > 0 {
      SameGraders(graders[..|graders| - 1], generator);
    }
  }

  lemma JuryIsUsed(c: Campaign, g: nat)
    requires g < |c.generators| && Rejection(c).None?
    ensures Jury(c, g) == Used(c.graders, c.generators[g], c.options.MaxGraders())
    ensures |Jury(c, g)| >= 2 <==> |Eligible(c.graders, c.generators[g])| >= MIN_GRADERS
  {
    SameGraders(c.graders, c.generators[g]);
  }

  /** What the jury cast, in its order. */
  ghost predicate JuryCast(c: Campaign, t: nat, g: nat, scores: seq<GraderScore>)
    requires g < |c.generators|
  {
    && |scores| == |Jury(c, g)|
    && forall i | 0 <= i < |scores| ::
         && scores[i].graderId == Jury(c, g)[i].id
         && c.grade(t, g, Jury(c, g)[i].id) == Some(scores[i].score) && 0 <= scores[i].score <= 9
  }

  ghost predicate AllPass(scores: seq<GraderScore>, passScore: int) { forall s | s in scores :: s.score >= passScore }

  ghost predicate AllFail(scores: seq<GraderScore>, passScore: int) { forall s | s in scores :: s.score < passScore }

  lemma UnanimousIff(scores: seq<GraderScore>, passScore: int)
    requires |scores| > 0
    ensures Unanimous(scores, passScore) <==> AllPass(scores, passScore) || AllFail(scores, passScore)
  {
    assert scores[0] in scores;
  }

  // ---------------------------------------------------------------------------
  // What a row and a disagreement hold
  // ---------------------------------------------------------------------------

  function SumOfScores(scores: seq<GraderScore>): int
    requires 2 <= |scores| <= 3
  {
    scores[0].score + scores[1].score + if |scores| == 3 then scores[2].score else 0
  }

  /** The mean of the scores to the nearest tenth, halves up. */
  ghost predicate NearestTenth(judgeScore: real, scores: seq<GraderScore>)
    requires 2 <= |scores| <= 3
  {
    exists k: int :: judgeScore == k as real / 10.0 && TenthsOf(k, SumOfScores(scores), |scores|)
  }

  ghost predicate TenthsOf(k: int, sum: int, n: nat) { (2 * k - 1) * n <= 20 * sum < (2 * k + 1) * n }

  lemma SumIsSum(scores: seq<GraderScore>)
    requires 2 <= |scores| <= 3
    ensures ScoreSum(scores) == SumOfScores(scores)
  {
    assert scores[..1][..0] == [];
    assert ScoreSum(scores[..1]) == scores[0].score;
    assert scores[..2][..1] == scores[..1];
    assert ScoreSum(scores[..2]) == scores[0].score + scores[1].score;
    assert |scores| == 2 ==> scores[..2] == scores;
  }

  lemma TenthsOfTwo(sum: int, k: int)
    requires k == (sum as real / 2.0 * 10.0 + 0.5).Floor
    ensures TenthsOf(k, sum, 2)
  {
  }

  lemma TenthsOfThree(sum: int, k: int)
    requires k == (sum as real / 3.0 * 10.0 + 0.5).Floor
    ensures TenthsOf(k, sum, 3)
  {
  }

  lemma MeanIsNearestTenth(scores: seq<GraderScore>)
    requires 2 <= |scores| <= 3
    ensures NearestTenth(MeanScore(scores), scores)
  {
    SumIsSum(scores);
    var sum := SumOfScores(scores);
    if |scores| == 2 {
      TenthsOfTwo(sum, (sum as real / 2.0 * 10.0 + 0.5).Floor);
    } else {
      TenthsOfThree(sum, (sum as real / 3.0 * 10.0 + 0.5).Floor);
    }
  }

  lemma OneNearestTenth(x: real, y: real, scores: seq<GraderScore>)
    requires 2 <= |scores| <= 3 && NearestTenth(x, scores) && NearestTenth(y, scores)
    ensures x == y
  {
    var j: int :| x == j as real / 10.0 && TenthsOf(j, SumOfScores(scores), |scores|);
    var k: int :| y == k as real / 10.0 && TenthsOf(k, SumOfScores(scores), |scores|);
    OneTenth(j, k, SumOfScores(scores), |scores|);
  }

  lemma OneTenth(j: int, k: int, sum: int, n: nat)
    requires 2 <= n <= 3 && TenthsOf(j, sum, n) && TenthsOf(k, sum, n)
    ensures j == k
  {
    if n == 2 {
    } else {
      assert n == 3;
    }
  }

  /** The row speaks for its own task and generator, for the jury's ids and for their scores. */
  ghost predicate RowHolds(c: Campaign, t: nat, g: nat, scores: seq<GraderScore>, e: LabeledEntry)
    requires InRange(c, t, g) && 2 <= |scores| <= 3
  {
    var task, generator := c.tasks[t], c.generators[g].id;
    && e.taskId == task.taskId && e.generatorId == generator
    && e.row.sampleId == c.sampleId(task.taskId, generator) && e.row.features == task.features && e.row.tier == task.tier
    && (e.row.success <==> AllPass(scores, c.options.passScore.GetOr(7)))
    && NearestTenth(e.judgeScore, scores)
    && |e.graderIds| == |scores| && (forall i | 0 <= i < |scores| :: e.graderIds[i] == scores[i].graderId)
    && |task.sessionId| > 0
    && (e.holdout <==>
        (c.digest(c.options.seed.GetOr("sp-282-adversarial-labeling"), task.sessionId) % 100) as real < c.options.holdoutPercent.GetOr(20.0))
    && SignalsHold(e.row.signals, generator, scores, e.row.success, e.judgeScore, e.holdout)
  }

  /** The signals in order: provenance, generator, graders, agreement, score, failure, partition. */
  ghost predicate SignalsHold(signals: seq<Signal>, generator: string, scores: seq<GraderScore>,
      success: bool, judgeScore: real, holdout: bool)
  {
    var n := |scores|;
    && |signals| == n + 5 + (if success then 0 else 1)
    && signals[0] == LlmJudge && signals[1] == GeneratorSignal(generator)
    && (forall i | 0 <= i < n :: signals[i + 2] == GraderSignal(scores[i].graderId))
    && signals[n + 2] == (if n == 2 then DualJudgeAgreement else MultiJudgeAgreement)
    && signals[n + 3] == JudgeScore(judgeScore)
    && (!success ==> signals[n + 4] == FailureScore(judgeScore))
    && signals[|signals| - 1] == if holdout then SessionHoldout else SessionFit
  }

  lemma SignalsInOrder(signals: seq<Signal>, first: seq<Signal>, graders: seq<Signal>, after: seq<Signal>, failure: seq<Signal>, tag: Signal)
    requires |first| == 2 && |after| == 2 && |failure| <= 1
    requires signals == first + graders + after + failure + [tag]
    ensures var n := |graders|;
      && |signals| == n + 5 + |failure|
      && signals[0] == first[0] && signals[1] == first[1]
      && (forall i | 0 <= i < n :: signals[i + 2] == graders[i])
      && signals[n + 2] == after[0] && signals[n + 3] == after[1]
      && (|failure| == 1 ==> signals[n + 4] == failure[0]) && signals[|signals| - 1] == tag
  {
  }

  lemma SignalsAre(signals: seq<Signal>, generator: string, scores: seq<GraderScore>, graders: seq<Signal>,
      agreement: Signal, failure: seq<Signal>, tag: Signal, success: bool, judgeScore: real, holdout: bool)
    requires |graders| == |scores| && forall i | 0 <= i < |scores| :: graders[i] == GraderSignal(scores[i].graderId)
    requires agreement == if |scores| == 2 then DualJudgeAgreement else MultiJudgeAgreement
    requires failure == if success then [] else [FailureScore(judgeScore)]
    requires tag == if holdout then SessionHoldout else SessionFit
    requires signals == [LlmJudge, GeneratorSignal(generator)] + graders + [agreement, JudgeScore(judgeScore)] + failure + [tag]
    ensures SignalsHold(signals, generator, scores, success, judgeScore, holdout)
  {
    SignalsInOrder(signals, [LlmJudge, GeneratorSignal(generator)], graders, [agreement, JudgeScore(judgeScore)], failure, tag);
  }

  lemma EntrySignals(c: Campaign, t: nat, g: nat, scores: seq<GraderScore>, holdout: bool)
    requires InRange(c, t, g) && 2 <= |scores| <= 3
    ensures var e := EntryOf(c, t, g, scores, holdout);
      SignalsHold(e.row.signals, c.generators[g].id, scores, e.row.success, e.judgeScore, holdout)
  {
    var e := EntryOf(c, t, g, scores, holdout);
    SignalsAre(e.row.signals, c.generators[g].id, scores, GraderSignals(GraderIds(scores)),
      if |scores| == MIN_GRADERS then DualJudgeAgreement else MultiJudgeAgreement,
      if e.row.success then [] else [FailureScore(e.judgeScore)], if holdout then SessionHoldout else SessionFit,
      e.row.success, e.judgeScore, holdout);
  }

  lemma EntryHolds(c: Campaign, t: nat, g: nat, scores: seq<GraderScore>, holdout: bool)
    requires InRange(c, t, g) && 2 <= |scores| <= 3 && Unanimous(scores, c.options.PassScore())
    requires AssignSessionHoldout(c.tasks[t].sessionId, c.options.Seed(), c.options.HoldoutPercent(), c.digest) == Some(holdout)
    ensures RowHolds(c, t, g, scores, EntryOf(c, t, g, scores, holdout))
  {
    MeanIsNearestTenth(scores);
    EntrySignals(c, t, g, scores, holdout);
    assert scores[0] in scores;
  }

  // ---------------------------------------------------------------------------
  // Which generations are judged, labelled and set aside
  // ---------------------------------------------------------------------------

  /** The generator answered with more than white space. */
  ghost predicate Answered(c: Campaign, t: nat, g: nat) {
    c.generate(t, g).Some? && exists ch | ch in c.generate(t, g).value :: !IsSpace(ch)
  }

  /** If the scores agree the task must name a session. */
  ghost predicate SessionIfAgreed(c: Campaign, t: nat, scores: seq<GraderScore>)
    requires t < |c.tasks|
  {
    AllPass(scores, c.options.passScore.GetOr(7)) || AllFail(scores, c.options.passScore.GetOr(7)) ==> |c.tasks[t].sessionId| > 0
  }

  /** Everything one generation needs: an answer, two graders, valid scores, and a session if they agree. */
  ghost predicate Judgeable(c: Campaign, t: nat, g: nat)
    requires InRange(c, t, g)
  {
    && Answered(c, t, g) && |Jury(c, g)| >= 2
    && exists scores :: JuryCast(c, t, g, scores) && SessionIfAgreed(c, t, scores)
  }

  lemma JuryScores(c: Campaign, t: nat, g: nat, scores: seq<GraderScore>)
    requires InRange(c, t, g) && Rejection(c).None?
    ensures JuryCast(c, t, g, scores) <==> Collect(GradedAll(c, t, g, Jury(c, g))) == Ok(scores)
  {
    var all := GradedAll(c, t, g, Jury(c, g));
    CollectDecides(all);
    if JuryCast(c, t, g, scores) {
      forall i | 0 <= i < |all| ensures all[i] == Ok(scores[i]) {
        assert all[i] == Graded(c, t, g, Jury(c, g)[i].id);
      }
      assert Collect(all).value == scores;
    } else if Collect(all) == Ok(scores) {
      forall i | 0 <= i < |scores|
        ensures scores[i].graderId == Jury(c, g)[i].id
        ensures c.grade(t, g, Jury(c, g)[i].id) == Some(scores[i].score) && 0 <= scores[i].score <= 9
      {
        ScoreIsCast(c, t, g, Jury(c, g)[i].id, scores[i]);
      }
    }
  }

  lemma DecidedIff(c: Campaign, t: nat, g: nat, scores: seq<GraderScore>)
    requires InRange(c, t, g) && |scores| > 0 && Rejection(c).None?
    ensures Decide(c, t, g, scores).Ok? <==> SessionIfAgreed(c, t, scores)
  {
    UnanimousIff(scores, c.options.PassScore());
  }

  lemma JudgeOf(c: Campaign, t: nat, g: nat)
    requires InRange(c, t, g) && Rejection(c).None?
    ensures var graded := Collect(GradedAll(c, t, g, Jury(c, g)));
      if Answered(c, t, g) && |Jury(c, g)| >= 2 && graded.Ok? then
        2 <= |graded.value| <= 3 && Judge(c, t, g) == Decide(c, t, g, graded.value)
      else Judge(c, t, g).Err?
  {
    JuryIsUsed(c, g);
    assert |Jury(c, g)| <= 3;
    CollectDecides(GradedAll(c, t, g, Jury(c, g)));
    assert Answered(c, t, g) <==> c.generate(t, g).Some? && !IsBlank(c.generate(t, g).value);
  }

  lemma JudgeableIsJudged(c: Campaign, t: nat, g: nat, scores: seq<GraderScore>)
    requires InRange(c, t, g) && Rejection(c).None?
    requires Answered(c, t, g) && |Jury(c, g)| >= 2 && JuryCast(c, t, g, scores) && SessionIfAgreed(c, t, scores)
    ensures Judge(c, t, g).Ok?
  {
    JudgeOf(c, t, g);
    JuryScores(c, t, g, scores);
    DecidedIff(c, t, g, scores);
  }

  lemma JudgedIsJudgeable(c: Campaign, t: nat, g: nat)
    requires InRange(c, t, g) && Rejection(c).None? && Judge(c, t, g).Ok?
    ensures Judgeable(c, t, g)
  {
    JudgeOf(c, t, g);
    var scores := Collect(GradedAll(c, t, g, Jury(c, g))).value;
    JuryScores(c, t, g, scores);
    DecidedIff(c, t, g, scores);
  }

  /** A generation is judged exactly when it has all it needs. */
  lemma JudgedIff(c: Campaign, t: nat, g: nat)
    requires InRange(c, t, g) && Rejection(c).None?
    ensures Judge(c, t, g).Ok? <==> Judgeable(c, t, g)
  {
    if Judgeable(c, t, g) {
      var scores :| JuryCast(c, t, g, scores) && SessionIfAgreed(c, t, scores);
      JudgeableIsJudged(c, t, g, scores);
    }
    if Judge(c, t, g).Ok? {
      JudgedIsJudgeable(c, t, g);
    }
  }

  /** The verdict the jury's scores call for. */
  ghost predicate VerdictFor(c: Campaign, t: nat, g: nat, scores: seq<GraderScore>, v: Verdict)
    requires InRange(c, t, g) && 2 <= |scores| <= 3
  {
    var pass := c.options.passScore.GetOr(7);
    match v
    case Agreed(e) => (AllPass(scores, pass) || AllFail(scores, pass)) && RowHolds(c, t, g, scores, e)
    case Split(d) =>
      && (exists s | s in scores :: s.score >= pass) && (exists s | s in scores :: s.score < pass)
      && d == Disagreement(c.tasks[t].taskId, c.generators[g].id, scores)
  }

  lemma DecisionIsCalledFor(c: Campaign, t: nat, g: nat, scores: seq<GraderScore>, v: Verdict)
    requires InRange(c, t, g) && 2 <= |scores| <= 3 && Decide(c, t, g, scores) == Ok(v)
    ensures VerdictFor(c, t, g, scores, v)
  {
    UnanimousIff(scores, c.options.PassScore());
    if Unanimous(scores, c.options.PassScore()) {
      EntryHolds(c, t, g, scores, v.entry.holdout);
    }
  }

  /** A judged generation is labelled when the jury all pass or all fail it, and set aside with exactly the jury's scores when both occur. */
  lemma VerdictIsCalledFor(c: Campaign, t: nat, g: nat, v: Verdict)
    requires Rejection(c).None? && Judged(c, t, g, v)
    ensures exists scores :: JuryCast(c, t, g, scores) && 2 <= |scores| <= 3 && VerdictFor(c, t, g, scores, v)
  {
    JudgeOf(c, t, g);
    var scores := Collect(GradedAll(c, t, g, Jury(c, g))).value;
    JuryScores(c, t, g, scores);
    DecisionIsCalledFor(c, t, g, scores, v);
  }

  lemma CastIsUnique(c: Campaign, t: nat, g: nat, scores: seq<GraderScore>, other: seq<GraderScore>)
    requires g < |c.generators| && JuryCast(c, t, g, scores) && JuryCast(c, t, g, other)
    ensures scores == other
  {
  }

  // ---------------------------------------------------------------------------
  // Whole runs
  // ---------------------------------------------------------------------------

  /** A letter or digit, then letters, digits, dots, underscores and hyphens. */
  ghost predicate PlainId(id: string) {
    && |id| > 0 && id[0] !in {'.', '_', '-'}
    && forall ch | ch in id :: 'a' <= ch <= 'z' || 'A' <= ch <= 'Z' || '0' <= ch <= '9' || ch in {'.', '_', '-'}
  }

  ghost predicate NoTwoAlike(clients: seq<Client>) {
    forall i, j | 0 <= i < |clients| && 0 <= j < |clients| && clients[i].id == clients[j].id :: i == j
  }

  /** What the run asks of its clients and options before it starts. */
  ghost predicate Admissible(c: Campaign) {
    && |c.generators| >= 2 && 2 <= |c.graders| <= 3
    && (forall client: Client | client in c.generators || client in c.graders :: PlainId(client.id))
    && NoTwoAlike(c.generators) && NoTwoAlike(c.graders)
    && 0.0 <= c.options.holdoutPercent.GetOr(20.0) <= 100.0
    && 0 < c.options.passScore.GetOr(7) <= 9 && 2 <= c.options.maxGraders.GetOr(3) <= 3
  }

  lemma PlainIdIff(id: string)
    ensures ValidClientId(id) <==> PlainId(id)
  {
    if |id| > 0 {
      assert id == [id[0]] + id[1..];
      assert forall ch :: ch in id <==> ch == id[0] || ch in id[1..];
      assert id[0] in id && (PlainId(id) ==> IsAlphaNumeric(id[0]));
    }
  }

  lemma AdmissibleIff(c: Campaign)
    ensures Rejection(c).None? <==> Admissible(c)
  {
    forall client: Client ensures ValidClientId(client.id) <==> PlainId(client.id) {
      PlainIdIff(client.id);
    }
  }

  /** How many tasks the limit leaves: the first so many, or all when it is negative or large. */
  ghost function Chosen(c: Campaign): (n: nat)
    ensures n <= |c.tasks|
  {
    match c.options.limit
    case Some(limit) => if 0 <= limit < |c.tasks| then limit else |c.tasks|
    case None => |c.tasks|
  }

  lemma ChosenAreSelected(c: Campaign)
    ensures |c.Selected()| == Chosen(c)
  {
  }

  /** A run completes exactly when its clients and options are admissible and every generation has all it needs. */
  lemma RunCompletesIff(c: Campaign)
    ensures Outcome(c).Ok? <==>
      Admissible(c) && forall t: nat, g: nat | t < Chosen(c) && g < |c.generators| :: Judgeable(c, t, g)
  {
    AdmissibleIff(c);
    ChosenAreSelected(c);
    if Rejection(c).None? {
      var n, m := |c.Selected()|, |c.generators|;
      if Outcome(c).Ok? {
        VerdictsTrace(Judgements(c), m, n, 0);
        forall t: nat, g: nat | t < n && g < m ensures Judgeable(c, t, g) {
          assert Earlier(t, g, n, 0);
          assert Accounted(Judges(Judgements(c)), Verdicts(Judgements(c), m, n, 0).value, t, g);
          JudgedIff(c, t, g);
        }
      } else if forall t: nat, g: nat | t < n && g < m :: Judgeable(c, t, g) {
        forall t: nat, g: nat | Earlier(t, g, n, 0) && g < m ensures Judgements(c)(t, g).Ok? {
          JudgedIff(c, t, g);
        }
        AllJudged(Judgements(c), m, n, 0);
      }
    }
  }

  /** The generation's row is among the labelled ones. */
  ghost predicate LabelledFrom(c: Campaign, r: Run, t: nat, g: nat, scores: seq<GraderScore>)
    requires InRange(c, t, g) && 2 <= |scores| <= 3
  {
    exists e | e in r.labeled :: RowHolds(c, t, g, scores, e)
  }

  /** The verdict these scores call for stands in its list. */
  ghost predicate Stands(c: Campaign, r: Run, t: nat, g: nat, scores: seq<GraderScore>)
    requires InRange(c, t, g)
  {
    && JuryCast(c, t, g, scores) && 2 <= |scores| <= 3
    && if AllPass(scores, c.options.passScore.GetOr(7)) || AllFail(scores, c.options.passScore.GetOr(7))
       then LabelledFrom(c, r, t, g, scores)
       else Disagreement(c.tasks[t].taskId, c.generators[g].id, scores) in r.disagreements
  }

  lemma VerdictStands(c: Campaign, r: Run, t: nat, g: nat, v: Verdict)
    requires Rejection(c).None? && Judged(c, t, g, v)
    requires if v.Agreed? then v.entry in r.labeled else v.disagreement in r.disagreements
    ensures exists scores :: Stands(c, r, t, g, scores)
  {
    VerdictIsCalledFor(c, t, g, v);
    var scores :| JuryCast(c, t, g, scores) && 2 <= |scores| <= 3 && VerdictFor(c, t, g, scores, v);
    assert Stands(c, r, t, g, scores);
  }

  /** In a completed run every generation's jury has cast, and its verdict stands in the list that calls for it. */
  lemma RunLabelsTheUnanimous(c: Campaign, t: nat, g: nat)
    requires Outcome(c).Ok? && t < Chosen(c) && g < |c.generators|
    ensures exists scores :: Stands(c, Outcome(c).value, t, g, scores)
  {
    var r := Outcome(c).value;
    CampaignConserves(c);
    assert Earlier(t, g, |c.Selected()|, 0);
    assert Placed(JudgedIn(c), r, t, g);
    if e :| e in r.labeled && JudgedIn(c)(t, g, Agreed(e)) {
      JudgedBy(c, t, g, Agreed(e));
      VerdictStands(c, r, t, g, Agreed(e));
    } else {
      var d :| d in r.disagreements && JudgedIn(c)(t, g, Split(d));
      JudgedBy(c, t, g, Split(d));
      VerdictStands(c, r, t, g, Split(d));
    }
  }

  /** The jury of one of the run's generations cast scores that call for this verdict. */
  ghost predicate CalledForIn(c: Campaign, t: nat, g: nat, v: Verdict) {
    && t < Chosen(c) && g < |c.generators|
    && exists scores :: JuryCast(c, t, g, scores) && 2 <= |scores| <= 3 && VerdictFor(c, t, g, scores, v)
  }

  lemma JudgedIsCalledFor(c: Campaign, t: nat, g: nat, v: Verdict)
    requires Rejection(c).None? && t < |c.Selected()| && Judged(c, t, g, v)
    ensures CalledForIn(c, t, g, v)
  {
    ChosenAreSelected(c);
    VerdictIsCalledFor(c, t, g, v);
  }

  lemma ListedComesFrom(c: Campaign, v: Verdict)
    requires Outcome(c).Ok?
    requires if v.Agreed? then v.entry in Outcome(c).value.labeled else v.disagreement in Outcome(c).value.disagreements
    ensures ComesFrom(JudgedIn(c), |c.generators|, |c.Selected()|, 0, v)
  {
    CampaignConserves(c);
    assert v.Agreed? ==> v == Agreed(v.entry);
    assert v.Split? ==> v == Split(v.disagreement);
  }

  /** Nothing else is in a completed run's two lists. */
  lemma NothingElseIsListed(c: Campaign, v: Verdict)
    requires Outcome(c).Ok?
    requires if v.Agreed? then v.entry in Outcome(c).value.labeled else v.disagreement in Outcome(c).value.disagreements
    ensures exists t: nat, g: nat :: CalledForIn(c, t, g, v)
  {
    ListedComesFrom(c, v);
    var t, g := OriginOf(c, v);
    JudgedIsCalledFor(c, t, g, v);
  }
}
