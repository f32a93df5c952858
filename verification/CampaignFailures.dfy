/** Why a labelling run fails: the first generation in the loops' order that lacks something, and what it lacks. */
module CampaignFailures {
  import opened Wrappers
  import opened Labelling
  import opened LabelCampaign
  import opened CampaignTheorems
  import opened CampaignVerdicts

  /** No integer from 0 to 9 comes from this grader. */
  ghost predicate NoScore(c: Campaign, t: nat, g: nat, grader: Client) {
    !(exists n | 0 <= n <= 9 :: c.grade(t, g, grader.id) == Some(n))
  }

  /** The first grader of the generation without a score. */
  ghost predicate FirstWithout(c: Campaign, t: nat, g: nat, id: string)
    requires g < |c.generators|
  {
    exists k | 0 <= k < |Jury(c, g)| ::
      Jury(c, g)[k].id == id && NoScore(c, t, g, Jury(c, g)[k]) && forall j | 0 <= j < k :: !NoScore(c, t, g, Jury(c, g)[j])
  }

  /** What the error says of the generation, each step of judging having been reached. */
  ghost predicate FailsWith(c: Campaign, t: nat, g: nat, e: CampaignError)
    requires InRange(c, t, g)
  {
    match e
    case EmptyResponse(task, generator) => task == t && generator == g && !Answered(c, t, g)
    case TooFewEligibleGraders(task, generator) => task == t && generator == g && Answered(c, t, g) && |Jury(c, g)| < 2
    case GraderFailed(task, generator, id) =>
      task == t && generator == g && Answered(c, t, g) && |Jury(c, g)| >= 2 && FirstWithout(c, t, g, id)
    case EmptySessionId(task) =>
      && task == t && Answered(c, t, g) && |Jury(c, g)| >= 2
      && exists scores :: JuryCast(c, t, g, scores) && !SessionIfAgreed(c, t, scores)
    case _ => false
  }

  lemma {:induction false} CollectFirst<T, E>(rs: seq<Result<T, E>>)
    requires Collect(rs).Err?
    ensures exists k | 0 <= k < |rs| :: rs[k] == Err(Collect(rs).error) && forall j | 0 <= j < k :: rs[j].Ok?
  {
    var n := |rs| - 1;
    if Collect(rs[..n]).Err? {
      CollectFirst(rs[..n]);
      var k :| 0 <= k < n && rs[..n][k] == Err(Collect(rs).error) && forall j | 0 <= j < k :: rs[..n][j].Ok?;
      assert rs[k] == rs[..n][k] && forall j | 0 <= j < k :: rs[j] == rs[..n][j];
    } else {
      CollectDecides(rs[..n]);
      assert rs[n] == Err(Collect(rs).error) && forall j | 0 <= j < n :: rs[j] == rs[..n][j] && rs[..n][j] in rs[..n];
    }
  }

  lemma GradedIff(c: Campaign, t: nat, g: nat, grader: Client)
    ensures Graded(c, t, g, grader.id).Err? <==> NoScore(c, t, g, grader)
    ensures Graded(c, t, g, grader.id).Err? ==> Graded(c, t, g, grader.id).error == GraderFailed(t, g, grader.id)
  {
    var raw := c.grade(t, g, grader.id);
    if raw.Some? {
      assert raw == Some(raw.value);
    }
  }

  lemma GradingFails(c: Campaign, t: nat, g: nat)
    requires InRange(c, t, g) && Collect(GradedAll(c, t, g, Jury(c, g))).Err?
    ensures var e := Collect(GradedAll(c, t, g, Jury(c, g))).error;
      exists id :: e == GraderFailed(t, g, id) && FirstWithout(c, t, g, id)
  {
    var jury, all := Jury(c, g), GradedAll(c, t, g, Jury(c, g));
    CollectFirst(all);
    var k :| 0 <= k < |all| && all[k] == Err(Collect(all).error) && forall j | 0 <= j < k :: all[j].Ok?;
    forall j | 0 <= j <= k ensures all[j].Err? <==> NoScore(c, t, g, jury[j]) {
      GradedIff(c, t, g, jury[j]);
    }
    GradedIff(c, t, g, jury[k]);
    assert FirstWithout(c, t, g, jury[k].id);
  }

  lemma JudgingFails(c: Campaign, t: nat, g: nat, e: CampaignError)
    requires InRange(c, t, g) && Rejection(c).None? && Judge(c, t, g) == Err(e)
    ensures FailsWith(c, t, g, e)
  {
    JuryIsUsed(c, g);
    JudgeOf(c, t, g);
    assert Answered(c, t, g) <==> c.generate(t, g).Some? && !IsBlank(c.generate(t, g).value);
    var graded := Collect(GradedAll(c, t, g, Jury(c, g)));
    if Answered(c, t, g) && |Jury(c, g)| >= 2 {
      if graded.Err? {
        GradingFails(c, t, g);
      } else {
        JuryScores(c, t, g, graded.value);
        DecidedIff(c, t, g, graded.value);
      }
    }
  }

  // ---------------------------------------------------------------------------
  // Whole runs
  // ---------------------------------------------------------------------------

  ghost predicate AllOkBefore(judge: Judging, m: nat, t: nat, g: nat) {
    forall t': nat, g': nat | Earlier(t', g', t, g) && g' < m :: judge(t', g').Ok?
  }

  /** The generation fails with the error, and every one before it in the loops' order is judged. */
  ghost predicate FirstToFail(judge: Judging, m: nat, t: nat, g: nat, e: CampaignError) {
    g < m && judge(t, g) == Err(e) && AllOkBefore(judge, m, t, g)
  }

  lemma {:induction false} VerdictsOk(judge: Judging, m: nat, t: nat, g: nat)
    requires g <= m && Verdicts(judge, m, t, g).Ok?
    ensures AllOkBefore(judge, m, t, g)
    decreases t, g
  {
    if g > 0 {
      VerdictsOk(judge, m, t, g - 1);
      assert forall t': nat, g': nat | Earlier(t', g', t, g) :: Earlier(t', g', t, g - 1) || (t' == t && g' == g - 1);
    } else if t > 0 {
      VerdictsOk(judge, m, t - 1, m);
      assert forall t': nat, g': nat | Earlier(t', g', t, 0) && g' < m :: Earlier(t', g', t - 1, m);
    }
  }

  lemma {:induction false} VerdictsFail(judge: Judging, m: nat, t: nat, g: nat) returns (t': nat, g': nat)
    requires g <= m && Verdicts(judge, m, t, g).Err?
    ensures Earlier(t', g', t, g) && FirstToFail(judge, m, t', g', Verdicts(judge, m, t, g).error)
    decreases t, g
  {
    if g > 0 {
      if Verdicts(judge, m, t, g - 1).Err? {
        t', g' := VerdictsFail(judge, m, t, g - 1);
      } else {
        VerdictsOk(judge, m, t, g - 1);
        t', g' := t, g - 1;
      }
    } else {
      t', g' := VerdictsFail(judge, m, t - 1, m);
    }
  }

  /** The first generation that lacks something, with what it lacks. */
  ghost predicate FirstLacking(c: Campaign, t: nat, g: nat, e: CampaignError) {
    && t < Chosen(c) && g < |c.generators| && FailsWith(c, t, g, e)
    && forall t': nat, g': nat | InRange(c, t', g') && Earlier(t', g', t, g) :: Judgeable(c, t', g')
  }

  lemma FirstFailureLacks(c: Campaign, t: nat, g: nat, e: CampaignError)
    requires Rejection(c).None? && t < Chosen(c) && FirstToFail(Judgements(c), |c.generators|, t, g, e)
    ensures FirstLacking(c, t, g, e)
  {
    JudgingFails(c, t, g, e);
    forall t': nat, g': nat | InRange(c, t', g') && Earlier(t', g', t, g) ensures Judgeable(c, t', g') {
      JudgedIff(c, t', g');
      assert Judgements(c)(t', g').Ok?;
    }
  }

  /** An admissible run that fails does so for the first generation that lacks something, and says what it is. */
  lemma RunFailsFirst(c: Campaign)
    requires Admissible(c) && Outcome(c).Err?
    ensures exists t: nat, g: nat :: FirstLacking(c, t, g, Outcome(c).error)
  {
    AdmissibleIff(c);
    ChosenAreSelected(c);
    var t, g := VerdictsFail(Judgements(c), |c.generators|, |c.Selected()|, 0);
    FirstFailureLacks(c, t, g, Outcome(c).error);
  }
}
