/** Which pass scores let a campaign meet its default floors at all. */
module CampaignFloors {
  import opened Wrappers
  import opened Sorting
  import opened Labelling
  import opened LabelCampaign
  import opened CampaignTheorems
  import opened CampaignReport

  // ---------------------------------------------------------------------------
  // Runs on which every grade fails
  // ---------------------------------------------------------------------------

  /** Every response and grade arrives, every session has an id, and no grade reaches the pass score. */
  ghost predicate LowGrades(c: Campaign) {
    && Rejection(c).None?
    && (forall t: nat, g: nat :: c.generate(t, g).Some? && !IsBlank(c.generate(t, g).value))
    && (forall task | task in c.tasks :: |task.sessionId| > 0)
    && (forall g | 0 <= g < |c.generators| :: |Eligible(c.graders, c.generators[g])| >= MIN_GRADERS)
    && forall t: nat, g: nat, id :: c.grade(t, g, id).Some? && SCORE_MIN <= c.grade(t, g, id).value < c.options.PassScore()
  }

  function UsedBy(c: Campaign, g: nat): seq<Client>
    requires g < |c.generators|
  {
    Used(c.graders, c.generators[g], c.options.MaxGraders())
  }

  /** The grades the used graders give, in their order. */
  ghost function GradesOf(c: Campaign, t: nat, g: nat): (scores: seq<GraderScore>)
    requires LowGrades(c) && g < |c.generators|
    ensures |scores| == |UsedBy(c, g)| >= MIN_GRADERS
    ensures forall i | 0 <= i < |scores| ::
      scores[i] == GraderScore(UsedBy(c, g)[i].id, c.grade(t, g, UsedBy(c, g)[i].id).value)
  {
    var used := UsedBy(c, g);
    seq(|used|, i requires 0 <= i < |used| => GraderScore(used[i].id, c.grade(t, g, used[i].id).value))
  }

  ghost predicate FailsWith(v: Verdict, scores: seq<GraderScore>)
    requires |scores| > 0
  {
    && v.Agreed? && !v.entry.row.success && |v.entry.graderIds| == |scores|
    && v.entry.judgeScore == MeanScore(scores)
  }

  lemma GradesCollected(c: Campaign, t: nat, g: nat)
    requires LowGrades(c) && InRange(c, t, g)
    ensures Collect(GradedAll(c, t, g, UsedBy(c, g))) == Ok(GradesOf(c, t, g))
  {
    var used, all := UsedBy(c, g), GradedAll(c, t, g, UsedBy(c, g));
    forall i | 0 <= i < |used| ensures all[i] == Ok(GradesOf(c, t, g)[i]) {
      assert all[i] == Graded(c, t, g, used[i].id);
    }
    CollectDecides(all);
    assert Collect(all).value == GradesOf(c, t, g);
  }

  lemma LowDecides(c: Campaign, t: nat, g: nat, scores: seq<GraderScore>)
    requires LowGrades(c) && InRange(c, t, g) && |scores| > 0
    requires forall s | s in scores :: s.score < c.options.PassScore()
    ensures Decide(c, t, g, scores).Ok? && FailsWith(Decide(c, t, g, scores).value, scores)
  {
    assert c.tasks[t] in c.tasks;
  }

  lemma LowVerdict(c: Campaign, t: nat, g: nat)
    requires LowGrades(c) && InRange(c, t, g)
    ensures Judge(c, t, g).Ok? && FailsWith(Judge(c, t, g).value, GradesOf(c, t, g))
  {
    GradesCollected(c, t, g);
    LowDecides(c, t, g, GradesOf(c, t, g));
  }

  lemma LowRunCompletes(c: Campaign)
    requires LowGrades(c)
    ensures Outcome(c).Ok?
  {
    forall t: nat, g: nat | Earlier(t, g, |c.Selected()|, 0) && g < |c.generators| ensures Judgements(c)(t, g).Ok? {
      LowVerdict(c, t, g);
    }
    AllJudged(Judgements(c), |c.generators|, |c.Selected()|, 0);
  }

  /** Some generator is judged by k graders. */
  ghost predicate SomeUse(c: Campaign, k: nat) { exists g | 0 <= g < |c.generators| :: |UsedBy(c, g)| == k }

  lemma LowOrigin(c: Campaign, e: LabeledEntry)
    requires LowGrades(c) && Outcome(c).Ok? && e in Outcome(c).value.labeled
    ensures !e.row.success && SomeUse(c, |e.graderIds|)
  {
    CampaignConserves(c);
    var t, g := OriginOf(c, Agreed(e));
    LowVerdict(c, t, g);
  }

  /** Every row of such a run is a failure. */
  lemma LowRowsFail(c: Campaign)
    requires LowGrades(c) && Outcome(c).Ok?
    ensures Negatives(Outcome(c).value.labeled) == Outcome(c).value.labeled
  {
    var labeled := Outcome(c).value.labeled;
    forall e | e in labeled ensures !e.row.success {
      LowOrigin(c, e);
    }
    FilterUniform(labeled, IsNegative(), true);
  }

  /** Each generation's mean is one of the failure scores. */
  lemma LowMeanReported(c: Campaign, t: nat, g: nat)
    requires LowGrades(c) && Outcome(c).Ok? && t < |c.Selected()| && g < |c.generators|
    ensures |Outcome(c).value.labeled| > 0
    ensures MeanScore(GradesOf(c, t, g)) in FailureScores(Outcome(c).value.labeled)
  {
    var r := Outcome(c).value;
    CampaignConserves(c);
    LowVerdict(c, t, g);
    assert Earlier(t, g, |c.Selected()|, 0);
    assert Placed(JudgedIn(c), r, t, g);
    var e :| e in r.labeled && JudgedIn(c)(t, g, Agreed(e));
    JudgedBy(c, t, g, Agreed(e));
    LowRowsFail(c);
  }

  // ---------------------------------------------------------------------------
  // Campaigns with five different failure scores
  // ---------------------------------------------------------------------------

  const JUDGE_A := Client("a", None)
  const JUDGE_B := Client("b", None)
  const JUDGE_C := Client("c", None)

  /** Grader `id`'s part when n graders split the sum as evenly as they can. */
  function Share(sum: nat, id: string, n: nat): int
    requires n >= 2
  {
    if id == "a" then (sum + n - 1) / n else if id == "b" then (sum + n - 2) / n else sum / n
  }

  /** Task t's response is graded t in all; generators "g" and `second`. */
  function LowCampaign(passScore: int, second: string, graders: seq<Client>, top: nat): Campaign
    requires |graders| >= 2
  {
    Campaign(seq(top + 1, _ => Task("t", "s", "p", None, map[])), [Client("g", None), Client(second, None)], graders,
      RunOptions(None, None, Some(passScore), None, None),
      (t: nat, g: nat) => Some("done"),
      (t: nat, g: nat, id: string) => Some(Share(if t <= top then t else top, id, |graders|)),
      (seed: string, session: string) => 0, (task: string, generator: string) => "row")
  }

  predicate TwoOrThree(graders: seq<Client>) { graders == [JUDGE_A, JUDGE_B] || graders == [JUDGE_A, JUDGE_B, JUDGE_C] }

  lemma Names()
    ensures forall id | id in ["a", "b", "c", "g", "h"] :: ValidClientId(id)
    ensures "a" != "b" && "a" != "c" && "b" != "c" && "g" !in ["a", "b", "c"] && "h" !in ["a", "b", "c"]
    ensures "g" != "h" && "g" != "c" && !IsBlank("done")
  {
    assert "a"[0] == 'a' && "b"[0] == 'b' && "c"[0] == 'c' && "g"[0] == 'g' && "h"[0] == 'h';
    assert "done"[0] in "done" && !IsSpace("done"[0]);
  }

  lemma NoneExcluded(graders: seq<Client>, id: string)
    requires TwoOrThree(graders) && id !in ["a", "b", "c"]
    ensures Eligible(graders, Client(id, None)) == graders
  {
    assert id != "a" && id != "b" && id != "c";
    FilterUniform(graders, MayJudge(Client(id, None)), true);
  }

  lemma OneExcluded()
    ensures Eligible([JUDGE_A, JUDGE_B, JUDGE_C], Client("c", None)) == [JUDGE_A, JUDGE_B]
  {
    Names();
    var may := MayJudge(Client("c", None));
    FilterUniform([JUDGE_A, JUDGE_B], may, true);
    FilterSnoc([JUDGE_A, JUDGE_B], JUDGE_C, may);
    assert [JUDGE_A, JUDGE_B] + [JUDGE_C] == [JUDGE_A, JUDGE_B, JUDGE_C];
    assert [JUDGE_A, JUDGE_B] + [] == [JUDGE_A, JUDGE_B];
  }

  /** Who grades the second generator: everyone, unless it bears a grader's name. */
  predicate Seconds(second: string, graders: seq<Client>) {
    second == "h" || (second == "c" && |graders| == 3)
  }

  lemma EligibleInLow(second: string, graders: seq<Client>)
    requires TwoOrThree(graders) && Seconds(second, graders)
    ensures Eligible(graders, Client("g", None)) == graders
    ensures Eligible(graders, Client(second, None)) == if second == "h" then graders else [JUDGE_A, JUDGE_B]
  {
    Names();
    NoneExcluded(graders, "g");
    if second == "h" {
      NoneExcluded(graders, "h");
    } else {
      OneExcluded();
    }
  }

  lemma LowAccepted(passScore: int, second: string, graders: seq<Client>, top: nat)
    requires TwoOrThree(graders) && Seconds(second, graders) && 1 <= passScore <= SCORE_MAX
    ensures Rejection(LowCampaign(passScore, second, graders, top)).None?
  {
    var c := LowCampaign(passScore, second, graders, top);
    LowIds(second, graders);
  }

  lemma LowIds(second: string, graders: seq<Client>)
    requires TwoOrThree(graders) && Seconds(second, graders)
    ensures ValidIds(graders) && DistinctIds(graders)
    ensures ValidIds([Client("g", None), Client(second, None)]) && DistinctIds([Client("g", None), Client(second, None)])
  {
    Names();
    assert second in ["a", "b", "c", "g", "h"] && "g" in ["a", "b", "c", "g", "h"];
  }

  lemma SharesLow(sum: nat, top: nat, id: string, n: nat, passScore: int)
    requires 2 <= n <= 3 && sum <= top && top <= n * (passScore - 1)
    ensures 0 <= Share(sum, id, n) < passScore
  {
  }

  lemma LowCampaignIsLow(passScore: int, second: string, graders: seq<Client>, top: nat)
    requires TwoOrThree(graders) && Seconds(second, graders) && 1 <= passScore <= SCORE_MAX
    requires top <= |graders| * (passScore - 1)
    ensures LowGrades(LowCampaign(passScore, second, graders, top))
  {
    LowAccepted(passScore, second, graders, top);
    Names();
    EligibleInLow(second, graders);
    LowCampaignGrades(passScore, second, graders, top);
  }

  lemma LowCampaignGrades(passScore: int, second: string, graders: seq<Client>, top: nat)
    requires TwoOrThree(graders) && top <= |graders| * (passScore - 1)
    ensures var c := LowCampaign(passScore, second, graders, top);
      forall t: nat, g: nat, id :: c.grade(t, g, id).Some? && SCORE_MIN <= c.grade(t, g, id).value < passScore
  {
    var c := LowCampaign(passScore, second, graders, top);
    forall t: nat, g: nat, id ensures c.grade(t, g, id).Some? && SCORE_MIN <= c.grade(t, g, id).value < passScore {
      SharesLow(if t <= top then t else top, top, id, |graders|, passScore);
    }
  }

  lemma SumOfTwo(scores: seq<GraderScore>)
    requires |scores| == 2
    ensures ScoreSum(scores) == scores[0].score + scores[1].score
  {
    assert scores[..1][..0] == [];
    assert ScoreSum(scores[..1]) == scores[0].score;
  }

  lemma SumOfThree(scores: seq<GraderScore>)
    requires |scores| == 3
    ensures ScoreSum(scores) == scores[0].score + scores[1].score + scores[2].score
  {
    SumOfTwo(scores[..2]);
  }

  lemma SharesAddUp(sum: nat)
    ensures Share(sum, "a", 2) + Share(sum, "b", 2) == sum
    ensures Share(sum, "a", 3) + Share(sum, "b", 3) + Share(sum, "c", 3) == sum
  {
    Names();
  }

  lemma MeanOfShares(scores: seq<GraderScore>, graders: seq<Client>, sum: nat)
    requires TwoOrThree(graders) && |scores| == |graders|
    requires forall i | 0 <= i < |scores| :: scores[i].score == Share(sum, graders[i].id, |graders|)
    ensures MeanScore(scores) == MeanOfSum(sum, |graders|)
  {
    SharesAddUp(sum);
    if |graders| == 2 {
      SumOfTwo(scores);
    } else {
      SumOfThree(scores);
    }
  }

  lemma EveryoneGradesFirst(passScore: int, second: string, graders: seq<Client>, top: nat)
    requires TwoOrThree(graders) && Seconds(second, graders)
    ensures UsedBy(LowCampaign(passScore, second, graders, top), 0) == graders
    ensures UsedBy(LowCampaign(passScore, second, graders, top), 1) == if second == "h" then graders else [JUDGE_A, JUDGE_B]
  {
    EligibleInLow(second, graders);
  }

  /** The first generator's response to task t is graded t in all. */
  lemma MeanOfTask(passScore: int, second: string, graders: seq<Client>, top: nat, t: nat)
    requires TwoOrThree(graders) && Seconds(second, graders) && 1 <= passScore <= SCORE_MAX
    requires top <= |graders| * (passScore - 1) && t <= top
    ensures var c := LowCampaign(passScore, second, graders, top);
      LowGrades(c) && MeanScore(GradesOf(c, t, 0)) == MeanOfSum(t, |graders|)
  {
    var c := LowCampaign(passScore, second, graders, top);
    LowCampaignIsLow(passScore, second, graders, top);
    EveryoneGradesFirst(passScore, second, graders, top);
    MeanOfShares(GradesOf(c, t, 0), graders, t);
  }

  lemma ReportsTask(passScore: int, second: string, graders: seq<Client>, top: nat, t: nat)
    requires TwoOrThree(graders) && Seconds(second, graders) && 1 <= passScore <= SCORE_MAX
    requires top <= |graders| * (passScore - 1) && t <= top
    ensures var r := Outcome(LowCampaign(passScore, second, graders, top));
      r.Ok? && |r.value.labeled| > 0 && MeanOfSum(t, |graders|) in FailureScores(r.value.labeled)
  {
    var c := LowCampaign(passScore, second, graders, top);
    MeanOfTask(passScore, second, graders, top, t);
    LowRunCompletes(c);
    assert c.Selected() == c.tasks;
    LowMeanReported(c, t, 0);
  }

  lemma FiveAreFive(s: set<real>, a: real, b: real, c: real, d: real, e: real)
    requires a in s && b in s && c in s && d in s && e in s
    requires a < b < c < d < e
    ensures |s| >= 5
  {
    SubsetSize({a, b, c, d, e}, s);
  }

  lemma MeansAscend(n: nat)
    requires 2 <= n <= 3
    ensures MeanOfSum(0, n) < MeanOfSum(1, n) < MeanOfSum(2, n) < MeanOfSum(3, n) < MeanOfSum(4, n)
    ensures MeanOfSum(1, 3) < MeanOfSum(1, 2) < MeanOfSum(2, 3)
  {
  }

  // ---------------------------------------------------------------------------
  // When the default floors can be met
  // ---------------------------------------------------------------------------

  ghost predicate Completes(c: Campaign, passScore: int) { Outcome(c).Ok? && c.options.PassScore() == passScore }

  ghost predicate MeetsDefaults(c: Campaign) {
    Outcome(c).Ok? && MeetsFloors(Outcome(c).value.labeled, MIN_NEGATIVE_FRACTION, MIN_DISTINCT_FAILURE_SCORES)
  }

  /** Every failed row rests on n graders. */
  ghost predicate FailedBy(c: Campaign, n: nat) {
    Outcome(c).Ok? && forall e | e in Outcome(c).value.labeled && !e.row.success :: |e.graderIds| == n
  }

  lemma LowMeetsDefaults(c: Campaign)
    requires LowGrades(c) && Outcome(c).Ok? && |Outcome(c).value.labeled| > 0
    requires |FailureScores(Outcome(c).value.labeled)| >= MIN_DISTINCT_FAILURE_SCORES
    ensures MeetsDefaults(c)
  {
    LowRowsFail(c);
  }

  lemma AcceptedPassScore(c: Campaign)
    requires Outcome(c).Ok?
    ensures 1 <= c.options.PassScore() <= SCORE_MAX
  {
  }

  function JudgesUpTo(n: nat): (graders: seq<Client>)
    requires 2 <= n <= 3
    ensures TwoOrThree(graders) && |graders| == n
  {
    if n == 2 then [JUDGE_A, JUDGE_B] else [JUDGE_A, JUDGE_B, JUDGE_C]
  }

  lemma UniformScores(passScore: int, n: nat)
    requires 2 <= n <= 3 && 1 <= passScore <= SCORE_MAX && n * (passScore - 1) >= 4
    ensures var r := Outcome(LowCampaign(passScore, "h", JudgesUpTo(n), 4));
      r.Ok? && |r.value.labeled| > 0 && |FailureScores(r.value.labeled)| >= MIN_DISTINCT_FAILURE_SCORES
  {
    ReportsTask(passScore, "h", JudgesUpTo(n), 4, 0);
    ReportsTask(passScore, "h", JudgesUpTo(n), 4, 1);
    ReportsTask(passScore, "h", JudgesUpTo(n), 4, 2);
    ReportsTask(passScore, "h", JudgesUpTo(n), 4, 3);
    ReportsTask(passScore, "h", JudgesUpTo(n), 4, 4);
    MeansAscend(n);
    FiveAreFive(FailureScores(Outcome(LowCampaign(passScore, "h", JudgesUpTo(n), 4)).value.labeled),
      MeanOfSum(0, n), MeanOfSum(1, n), MeanOfSum(2, n), MeanOfSum(3, n), MeanOfSum(4, n));
  }

  lemma UsedThroughout(c: Campaign, n: nat)
    requires LowGrades(c) && Outcome(c).Ok?
    requires forall g | 0 <= g < |c.generators| :: |UsedBy(c, g)| == n
    ensures FailedBy(c, n)
  {
    forall e | e in Outcome(c).value.labeled ensures |e.graderIds| == n {
      LowOrigin(c, e);
    }
  }

  lemma UniformUse(passScore: int, n: nat)
    requires 2 <= n <= 3
    ensures var c := LowCampaign(passScore, "h", JudgesUpTo(n), 4);
      forall g | 0 <= g < |c.generators| :: |UsedBy(c, g)| == n
  {
    EveryoneGradesFirst(passScore, "h", JudgesUpTo(n), 4);
  }

  /** With n graders throughout, tasks graded 0 to 4 in all give five failure scores. */
  lemma UniformCampaign(passScore: int, n: nat) returns (c: Campaign)
    requires 2 <= n <= 3 && 1 <= passScore <= SCORE_MAX && n * (passScore - 1) >= 4
    ensures Completes(c, passScore) && FailedBy(c, n) && MeetsDefaults(c)
  {
    c := LowCampaign(passScore, "h", JudgesUpTo(n), 4);
    LowCampaignIsLow(passScore, "h", JudgesUpTo(n), 4);
    UniformScores(passScore, n);
    LowMeetsDefaults(c);
    UniformUse(passScore, n);
    UsedThroughout(c, n);
  }

  /** A generator that is also a grader has two graders where the other has three: halves and thirds mix. */
  lemma MixedCampaign(passScore: int) returns (c: Campaign)
    requires 2 <= passScore <= SCORE_MAX
    ensures Completes(c, passScore) && MeetsDefaults(c)
  {
    c := LowCampaign(passScore, "c", JudgesUpTo(3), 3);
    LowCampaignIsLow(passScore, "c", JudgesUpTo(3), 3);
    ReportsTask(passScore, "c", JudgesUpTo(3), 3, 0);
    ReportsTask(passScore, "c", JudgesUpTo(3), 3, 1);
    ReportsTask(passScore, "c", JudgesUpTo(3), 3, 2);
    ReportsTask(passScore, "c", JudgesUpTo(3), 3, 3);
    ReportsHalf(passScore);
    MeansAscend(3);
    var scores := FailureScores(Outcome(c).value.labeled);
    FiveAreFive(scores, MeanOfSum(0, 3), MeanOfSum(1, 3), MeanOfSum(1, 2), MeanOfSum(2, 3), MeanOfSum(3, 3));
    LowMeetsDefaults(c);
  }

  lemma HalfGraded(c: Campaign)
    requires LowGrades(c) && |c.generators| == 2 && UsedBy(c, 1) == [JUDGE_A, JUDGE_B]
    requires c.grade(1, 1, "a") == Some(Share(1, "a", 3)) && c.grade(1, 1, "b") == Some(Share(1, "b", 3))
    ensures MeanScore(GradesOf(c, 1, 1)) == MeanOfSum(1, 2)
  {
    Names();
    SumOfTwo(GradesOf(c, 1, 1));
  }

  lemma ReportsHalf(passScore: int)
    requires 2 <= passScore <= SCORE_MAX
    ensures var r := Outcome(LowCampaign(passScore, "c", JudgesUpTo(3), 3));
      r.Ok? && MeanOfSum(1, 2) in FailureScores(r.value.labeled)
  {
    var c := LowCampaign(passScore, "c", JudgesUpTo(3), 3);
    LowCampaignIsLow(passScore, "c", JudgesUpTo(3), 3);
    EveryoneGradesFirst(passScore, "c", JudgesUpTo(3), 3);
    HalfGraded(c);
    LowRunCompletes(c);
    assert c.Selected() == c.tasks;
    LowMeanReported(c, 1, 1);
  }

  /** A pass score admits a run that meets the default floors exactly when it is an accepted one above 1. */
  lemma DefaultFloorsReachable(passScore: int)
    ensures (exists c :: Completes(c, passScore) && MeetsDefaults(c)) <==> 2 <= passScore <= SCORE_MAX
  {
    if 2 <= passScore <= SCORE_MAX {
      var c := MixedCampaign(passScore);
    } else if c :| Completes(c, passScore) && MeetsDefaults(c) {
      AcceptedPassScore(c);
      PassScoreOneNeverValid(c);
      assert false;
    }
  }

  /** With n graders to every failed row it is so exactly when n half- or third-steps below the pass score make five. */
  lemma UniformFloorsReachable(passScore: int, n: nat)
    requires MIN_GRADERS <= n <= MAX_GRADERS
    ensures (exists c :: Completes(c, passScore) && FailedBy(c, n) && MeetsDefaults(c))
       <==> passScore <= SCORE_MAX && (passScore - 1) * n >= 4
  {
    if passScore <= SCORE_MAX && (passScore - 1) * n >= 4 {
      var c := UniformCampaign(passScore, n);
    } else if c :| Completes(c, passScore) && FailedBy(c, n) && MeetsDefaults(c) {
      AcceptedPassScore(c);
      FailureScoresAreFew(c, n);
      assert false;
    }
  }
}
