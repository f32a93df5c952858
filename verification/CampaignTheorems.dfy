/** What every completed labelling run conserves and keeps apart. */
module CampaignTheorems {
  import opened Wrappers
  import opened Sorting
  import opened Labelling
  import opened LabelCampaign

  /** Generation (t, g) was judged, with verdict v. */
  ghost predicate Judged(c: Campaign, t: nat, g: nat, v: Verdict) {
    InRange(c, t, g) && c.options.MaxGraders() >= MIN_GRADERS && Judge(c, t, g) == Ok(v)
  }

  predicate Earlier(t: nat, g: nat, t': nat, g': nat) { t < t' || (t == t' && g < g') }

  ghost function Judges(judge: Judging): (nat, nat, Verdict) -> bool { (t: nat, g: nat, v: Verdict) => judge(t, g) == Ok(v) }

  lemma JudgedBy(c: Campaign, t: nat, g: nat, v: Verdict)
    requires t < |c.Selected()| && g < |c.generators| && Rejection(c).None?
    ensures Judges(Judgements(c))(t, g, v) <==> Judged(c, t, g, v)
  {
  }

  ghost predicate Accounted(judged: (nat, nat, Verdict) -> bool, verdicts: seq<Verdict>, t: nat, g: nat) {
    exists v | v in verdicts :: judged(t, g, v)
  }

  ghost predicate ComesFrom(judged: (nat, nat, Verdict) -> bool, m: nat, t: nat, g: nat, v: Verdict) {
    exists t': nat, g': nat :: Earlier(t', g', t, g) && g' < m && judged(t', g', v)
  }

  /** Generations before a position and verdicts up to it correspond. */
  ghost predicate Traces(judged: (nat, nat, Verdict) -> bool, m: nat, verdicts: seq<Verdict>, t: nat, g: nat) {
    && |verdicts| == t * m + g
    && (forall v | v in verdicts :: ComesFrom(judged, m, t, g, v))
    && forall t': nat, g': nat | Earlier(t', g', t, g) && g' < m :: Accounted(judged, verdicts, t', g')
  }

  lemma TraceSnoc(judged: (nat, nat, Verdict) -> bool, m: nat, verdicts: seq<Verdict>, t: nat, g: nat, v: Verdict)
    requires g < m && Traces(judged, m, verdicts, t, g) && judged(t, g, v)
    ensures Traces(judged, m, verdicts + [v], t, g + 1)
  {
    forall v' | v' in verdicts + [v] ensures ComesFrom(judged, m, t, g + 1, v') {
      if v' in verdicts {
        var t': nat, g': nat :| Earlier(t', g', t, g) && g' < m && judged(t', g', v');
        assert Earlier(t', g', t, g + 1);
      } else {
        assert Earlier(t, g, t, g + 1);
      }
    }
    forall t': nat, g': nat | Earlier(t', g', t, g + 1) && g' < m ensures Accounted(judged, verdicts + [v], t', g') {
      if t' == t && g' == g {
        assert v in verdicts + [v];
      } else {
        assert Accounted(judged, verdicts, t', g');
        var v' :| v' in verdicts && judged(t', g', v');
        assert v' in verdicts + [v];
      }
    }
  }

  lemma TraceWraps(judged: (nat, nat, Verdict) -> bool, m: nat, verdicts: seq<Verdict>, t: nat)
    requires Traces(judged, m, verdicts, t, m)
    ensures Traces(judged, m, verdicts, t + 1, 0)
  {
    assert t * m + m == (t + 1) * m;
    forall v | v in verdicts ensures ComesFrom(judged, m, t + 1, 0, v) {
      assert ComesFrom(judged, m, t, m, v);
      var t': nat, g': nat :| Earlier(t', g', t, m) && g' < m && judged(t', g', v);
      assert Earlier(t', g', t + 1, 0);
    }
    forall t': nat, g': nat | Earlier(t', g', t + 1, 0) && g' < m ensures Accounted(judged, verdicts, t', g') {
      assert Earlier(t', g', t, m);
    }
  }

  lemma {:induction false} VerdictsTrace(judge: Judging, m: nat, t: nat, g: nat)
    requires g <= m && Verdicts(judge, m, t, g).Ok?
    ensures Traces(Judges(judge), m, Verdicts(judge, m, t, g).value, t, g)
    decreases t, g
  {
    if g > 0 {
      VerdictsTrace(judge, m, t, g - 1);
      TraceSnoc(Judges(judge), m, Verdicts(judge, m, t, g - 1).value, t, g - 1, judge(t, g - 1).value);
    } else if t > 0 {
      VerdictsTrace(judge, m, t - 1, m);
      TraceWraps(Judges(judge), m, Verdicts(judge, m, t, g).value, t - 1);
    }
  }

  lemma {:induction false} AllJudged(judge: Judging, m: nat, t: nat, g: nat)
    requires g <= m
    requires forall t': nat, g': nat | Earlier(t', g', t, g) && g' < m :: judge(t', g').Ok?
    ensures Verdicts(judge, m, t, g).Ok?
    decreases t, g
  {
    if g > 0 {
      assert Earlier(t, g - 1, t, g);
      AllJudged(judge, m, t, g - 1);
    } else if t > 0 {
      AllJudged(judge, m, t - 1, m);
    }
  }

  lemma {:induction false} SortedOut(verdicts: seq<Verdict>)
    ensures |Agreements(verdicts)| + |Splits(verdicts)| == |verdicts|
    ensures forall e :: e in Agreements(verdicts) <==> Agreed(e) in verdicts
    ensures forall d :: d in Splits(verdicts) <==> Split(d) in verdicts
  {
    if |verdicts| > 0 {
      var init, v := verdicts[..|verdicts| - 1], verdicts[|verdicts| - 1];
      SortedOut(init);
      assert verdicts == init + [v];
    }
  }

  /** The run's rows and disagreements are exactly the verdicts of the first n tasks' generations. */
  ghost predicate AccountsFor(judged: (nat, nat, Verdict) -> bool, m: nat, n: nat, r: Run) {
    && r.tasksProcessed == n
    && r.generations == |r.labeled| + |r.disagreements| == n * m
    && (forall e | e in r.labeled :: ComesFrom(judged, m, n, 0, Agreed(e)))
    && (forall d | d in r.disagreements :: ComesFrom(judged, m, n, 0, Split(d)))
    && forall t: nat, g: nat | Earlier(t, g, n, 0) && g < m :: Placed(judged, r, t, g)
  }

  ghost predicate Placed(judged: (nat, nat, Verdict) -> bool, r: Run, t: nat, g: nat) {
    (exists e | e in r.labeled :: judged(t, g, Agreed(e))) || exists d | d in r.disagreements :: judged(t, g, Split(d))
  }

  lemma TracedRunAccounts(judged: (nat, nat, Verdict) -> bool, m: nat, n: nat, verdicts: seq<Verdict>)
    requires Traces(judged, m, verdicts, n, 0)
    ensures AccountsFor(judged, m, n, RunOf(verdicts, n))
  {
    SortedOut(verdicts);
    var r := RunOf(verdicts, n);
    forall t: nat, g: nat | Earlier(t, g, n, 0) && g < m ensures Placed(judged, r, t, g) {
      assert Accounted(judged, verdicts, t, g);
      var v :| v in verdicts && judged(t, g, v);
      assert v.Agreed? ==> v == Agreed(v.entry) && v.entry in r.labeled;
      assert v.Split? ==> v == Split(v.disagreement) && v.disagreement in r.disagreements;
    }
  }

  /** What judging the campaign's generations gave. */
  ghost function JudgedIn(c: Campaign): (nat, nat, Verdict) -> bool { Judges(Judgements(c)) }

  /** A completed run labels or sets aside every generation of every selected task, and nothing else. */
  lemma CampaignConserves(c: Campaign)
    requires Outcome(c).Ok?
    ensures AccountsFor(JudgedIn(c), |c.generators|, |c.Selected()|, Outcome(c).value)
  {
    var n := |c.Selected()|;
    VerdictsTrace(Judgements(c), |c.generators|, n, 0);
    TracedRunAccounts(JudgedIn(c), |c.generators|, n, Verdicts(Judgements(c), |c.generators|, n, 0).value);
  }

  /** Every verdict of a completed run was reached on one of its generations. */
  lemma OriginOf(c: Campaign, v: Verdict) returns (t: nat, g: nat)
    requires Rejection(c).None? && ComesFrom(JudgedIn(c), |c.generators|, |c.Selected()|, 0, v)
    ensures t < |c.Selected()| && Judged(c, t, g, v)
  {
    t, g :| Earlier(t, g, |c.Selected()|, 0) && g < |c.generators| && JudgedIn(c)(t, g, v);
    JudgedBy(c, t, g, v);
  }

  // ---------------------------------------------------------------------------
  // What a labelled row guarantees
  // ---------------------------------------------------------------------------

  lemma {:induction false} FilterKeepsDistinct(clients: seq<Client>, p: Client -> bool)
    requires DistinctIds(clients)
    ensures DistinctIds(Filter(clients, p))
  {
    if |clients| > 0 {
      var init, x := clients[..|clients| - 1], clients[|clients| - 1];
      FilterKeepsDistinct(init, p);
      FilterMembers(init, p);
      assert forall y | y in init :: y.id != x.id;
      assert forall y | y in Filter(init, p) :: y.id != x.id;
    }
  }

  lemma UsedAreEligible(graders: seq<Client>, generator: Client, maxGraders: nat)
    requires DistinctIds(graders)
    ensures DistinctIds(Used(graders, generator, maxGraders))
    ensures forall x | x in Used(graders, generator, maxGraders) :: x in graders && !IsGraderExcluded(x, generator)
    ensures |Used(graders, generator, maxGraders)| <= maxGraders
  {
    FilterKeepsDistinct(graders, MayJudge(generator));
    FilterMembers(graders, MayJudge(generator));
    var eligible := Eligible(graders, generator);
    assert forall x | x in Used(graders, generator, maxGraders) :: x in eligible;
  }

  /** Some grader of the campaign, allowed to judge this generator, carries the id. */
  ghost predicate MayGrade(c: Campaign, g: nat, id: string)
    requires g < |c.generators|
  {
    exists grader | grader in c.graders :: grader.id == id && !IsGraderExcluded(grader, c.generators[g])
  }

  /** The scores a verdict rests on. */
  ghost predicate CastScores(c: Campaign, t: nat, g: nat, scores: seq<GraderScore>)
    requires g < |c.generators|
  {
    && MIN_GRADERS <= |scores| <= MAX_GRADERS
    && (forall i, j | 0 <= i < j < |scores| :: scores[i].graderId != scores[j].graderId)
    && forall s | s in scores :: MayGrade(c, g, s.graderId) && c.grade(t, g, s.graderId) == Some(s.score) && SCORE_MIN <= s.score <= SCORE_MAX
  }

  lemma ScoresAreCast(c: Campaign, t: nat, g: nat, used: seq<Client>, scores: seq<GraderScore>)
    requires InRange(c, t, g) && DistinctIds(c.graders) && MIN_GRADERS <= c.options.MaxGraders() <= MAX_GRADERS
    requires used == Used(c.graders, c.generators[g], c.options.MaxGraders()) && |used| >= MIN_GRADERS
    requires Collect(GradedAll(c, t, g, used)) == Ok(scores)
    ensures CastScores(c, t, g, scores)
  {
    UsedAreEligible(c.graders, c.generators[g], c.options.MaxGraders());
    CollectDecides(GradedAll(c, t, g, used));
    forall i | 0 <= i < |scores|
      ensures scores[i].graderId == used[i].id && MayGrade(c, g, used[i].id)
      ensures c.grade(t, g, used[i].id) == Some(scores[i].score) && SCORE_MIN <= scores[i].score <= SCORE_MAX
    {
      ScoreIsCast(c, t, g, used[i].id, scores[i]);
      assert used[i] in used;
    }
  }

  lemma ScoreIsCast(c: Campaign, t: nat, g: nat, id: string, s: GraderScore)
    requires Graded(c, t, g, id) == Ok(s)
    ensures s.graderId == id && c.grade(t, g, id) == Some(s.score) && SCORE_MIN <= s.score <= SCORE_MAX
  {
  }

  /** A row speaks for two or three distinct permitted graders, all on the same side of the pass score. */
  ghost predicate SoundEntry(c: Campaign, t: nat, g: nat, e: LabeledEntry, scores: seq<GraderScore>)
    requires InRange(c, t, g)
  {
    && CastScores(c, t, g, scores) && e.graderIds == GraderIds(scores)
    && e.taskId == c.tasks[t].taskId && e.generatorId == c.generators[g].id && e.row.features == c.tasks[t].features
    && (e.row.success ==> forall s | s in scores :: s.score >= c.options.PassScore())
    && (!e.row.success ==> forall s | s in scores :: s.score < c.options.PassScore())
    && (e.row.success ==> e.judgeScore >= c.options.PassScore() as real)
    && (!e.row.success ==> e.judgeScore <= (c.options.PassScore() - 1) as real)
    && 0.0 <= e.judgeScore <= 9.0 && e.judgeScore == MeanScore(scores)
    && AssignSessionHoldout(c.tasks[t].sessionId, c.options.Seed(), c.options.HoldoutPercent(), c.digest) == Some(e.holdout)
    && (SessionHoldout in e.row.signals <==> e.holdout) && (SessionFit in e.row.signals <==> !e.holdout)
  }

  lemma EntryTags(c: Campaign, t: nat, g: nat, scores: seq<GraderScore>, holdout: bool)
    requires InRange(c, t, g) && |scores| > 0
    ensures var signals := EntryOf(c, t, g, scores, holdout).row.signals;
      (SessionHoldout in signals <==> holdout) && (SessionFit in signals <==> !holdout)
  {
    var signals := EntryOf(c, t, g, scores, holdout).row.signals;
    assert signals[|signals| - 1] == if holdout then SessionHoldout else SessionFit;
  }

  lemma EntryScore(scores: seq<GraderScore>, passScore: int)
    requires |scores| > 0 && Unanimous(scores, passScore)
    requires forall s | s in scores :: SCORE_MIN <= s.score <= SCORE_MAX
    ensures Passes(scores[0], passScore) ==>
      (forall s | s in scores :: s.score >= passScore) && MeanScore(scores) >= passScore as real
    ensures !Passes(scores[0], passScore) ==>
      (forall s | s in scores :: s.score < passScore) && MeanScore(scores) <= (passScore - 1) as real
    ensures 0.0 <= MeanScore(scores) <= 9.0
  {
    MeanWithinBounds(scores, SCORE_MIN, SCORE_MAX);
    if Passes(scores[0], passScore) {
      MeanWithinBounds(scores, passScore, SCORE_MAX);
    } else {
      MeanWithinBounds(scores, SCORE_MIN, passScore - 1);
    }
  }

  /** An agreed verdict was decided on scores its used graders cast. */
  lemma AgreedOn(c: Campaign, t: nat, g: nat, e: LabeledEntry) returns (scores: seq<GraderScore>)
    requires Rejection(c).None? && Judged(c, t, g, Agreed(e))
    ensures CastScores(c, t, g, scores) && Decide(c, t, g, scores) == Ok(Agreed(e))
  {
    var used := Used(c.graders, c.generators[g], c.options.MaxGraders());
    scores := Collect(GradedAll(c, t, g, used)).value;
    ScoresAreCast(c, t, g, used, scores);
  }

  lemma DecisionIsSound(c: Campaign, t: nat, g: nat, scores: seq<GraderScore>, e: LabeledEntry)
    requires InRange(c, t, g) && CastScores(c, t, g, scores) && Decide(c, t, g, scores) == Ok(Agreed(e))
    ensures SoundEntry(c, t, g, e, scores)
  {
    EntryScore(scores, c.options.PassScore());
    EntryTags(c, t, g, scores, e.holdout);
  }

  /** What one labelled row guarantees. */
  lemma EntryIsSound(c: Campaign, t: nat, g: nat, e: LabeledEntry)
    requires Rejection(c).None? && Judged(c, t, g, Agreed(e))
    ensures exists scores :: SoundEntry(c, t, g, e, scores)
  {
    var scores := AgreedOn(c, t, g, e);
    DecisionIsSound(c, t, g, scores, e);
  }

  /** Every row of a completed run is sound. */
  lemma LabeledRowsAreSound(c: Campaign)
    requires Outcome(c).Ok?
    ensures forall e | e in Outcome(c).value.labeled ::
      exists t: nat, g: nat, scores :: InRange(c, t, g) && SoundEntry(c, t, g, e, scores)
  {
    CampaignConserves(c);
    forall e | e in Outcome(c).value.labeled
      ensures exists t: nat, g: nat, scores :: InRange(c, t, g) && SoundEntry(c, t, g, e, scores)
    {
      var t, g := OriginOf(c, Agreed(e));
      EntryIsSound(c, t, g, e);
    }
  }

  /** All rows of one session, over any two runs with one seed, percentage and digest, fall on one side. */
  lemma SessionsStayTogether(c: Campaign, d: Campaign, t: nat, g: nat, t': nat, g': nat, e: LabeledEntry, f: LabeledEntry)
    requires Rejection(c).None? && Rejection(d).None?
    requires c.options.Seed() == d.options.Seed() && c.options.HoldoutPercent() == d.options.HoldoutPercent() && c.digest == d.digest
    ensures Judged(c, t, g, Agreed(e)) && Judged(d, t', g', Agreed(f)) && c.tasks[t].sessionId == d.tasks[t'].sessionId ==>
      e.holdout == f.holdout && (SessionHoldout in e.row.signals <==> SessionHoldout in f.row.signals)
  {
    if Judged(c, t, g, Agreed(e)) && Judged(d, t', g', Agreed(f)) {
      EntryIsSound(c, t, g, e);
      EntryIsSound(d, t', g', f);
    }
  }
}
