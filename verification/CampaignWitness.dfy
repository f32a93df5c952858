/** A campaign whose report falls short: one generator is called "constructor", which the id check accepts. */
module CampaignWitness {
  import opened Wrappers
  import opened Sorting
  import opened Grouping
  import opened Labelling
  import opened LabelCampaign
  import opened CampaignTheorems
  import opened CampaignReport

  function ShortCampaign(): Campaign {
    Campaign([Task("t", "s", "p", None, map[])],
      [Client("constructor", None), Client("g", None)], [Client("a", None), Client("b", None)],
      RunOptions(None, None, None, None, None),
      (t: nat, g: nat) => Some("done"), (t: nat, g: nat, id: string) => Some(SCORE_MAX),
      (seed: string, session: string) => 0, (task: string, generator: string) => "row")
  }

  /** The id check lets an inherited name through. */
  lemma InheritedNameIsValidId()
    ensures ValidClientId("constructor") && "constructor" in INHERITED_NAMES
  {
  }

  lemma ShortNames()
    ensures ValidClientId("g") && ValidClientId("a") && ValidClientId("b")
    ensures "constructor" != "g" && "constructor" != "a" && "constructor" != "b" && "g" != "a" && "g" != "b" && "a" != "b"
    ensures "g" !in INHERITED_NAMES
  {
    assert |"constructor"| == 11 && "g"[0] == 'g' && "a"[0] == 'a' && "b"[0] == 'b';
    assert forall name | name in INHERITED_NAMES :: |name| > 1;
  }

  lemma ShortCampaignAccepted()
    ensures Rejection(ShortCampaign()).None?
  {
    var c := ShortCampaign();
    InheritedNameIsValidId();
    ShortNames();
    assert ValidIds(c.generators) && ValidIds(c.graders);
    assert DistinctIds(c.generators) && DistinctIds(c.graders);
  }

  lemma ShortCampaignJudges(g: nat)
    requires g < 2
    ensures Judge(ShortCampaign(), 0, g).Ok?
  {
    var c := ShortCampaign();
    var generator := c.generators[g];
    ShortNames();
    assert c.graders[0].id != generator.id && c.graders[1].id != generator.id;
    FilterUniform(c.graders, MayJudge(generator), true);
    assert Eligible(c.graders, generator) == c.graders;
    var used := Used(c.graders, generator, c.options.MaxGraders());
    assert !IsBlank("done") by {
      assert "done"[0] in "done" && !IsSpace("done"[0]);
    }
    CollectDecides(GradedAll(c, 0, g, used));
    var scores := Collect(GradedAll(c, 0, g, used)).value;
    assert forall i | 0 <= i < |scores| :: Graded(c, 0, g, used[i].id) == Ok(scores[i]);
    assert Unanimous(scores, c.options.PassScore());
  }

  lemma ShortCampaignCompletes()
    ensures Rejection(ShortCampaign()).None? && |ShortCampaign().Selected()| == 1 && |ShortCampaign().generators| == 2
    ensures Outcome(ShortCampaign()).Ok?
  {
    var c := ShortCampaign();
    ShortCampaignAccepted();
    assert c.Selected() == c.tasks;
    ShortCampaignJudges(0);
    ShortCampaignJudges(1);
    BothJudged(Judgements(c));
  }

  lemma BothJudged(judge: Judging)
    requires judge(0, 0).Ok? && judge(0, 1).Ok?
    ensures Verdicts(judge, 2, 1, 0).Ok?
  {
    assert Verdicts(judge, 2, 0, 0).Ok? && Verdicts(judge, 2, 0, 1).Ok?;
    assert Verdicts(judge, 2, 0, 2).Ok?;
  }

  // ---------------------------------------------------------------------------
  // The ids a report lists
  // ---------------------------------------------------------------------------

  /** A generator of the campaign carries the id. */
  predicate Generates(c: Campaign, id: string) { exists g | g in c.generators :: g.id == id }

  lemma LabeledNames(c: Campaign, r: Run, id: string)
    requires Rejection(c).None? && AccountsFor(JudgedIn(c), |c.generators|, |c.Selected()|, r) && LabeledBy(r.labeled, id) > 0
    ensures Generates(c, id)
  {
    var mine := Members(r.labeled, EntryGenerator(), id);
    MembersHaveKey(r.labeled, EntryGenerator(), id);
    assert mine[0] in mine;
    RowsNameGenerators(c, r);
  }

  lemma SplitNames(c: Campaign, r: Run, id: string)
    requires Rejection(c).None? && AccountsFor(JudgedIn(c), |c.generators|, |c.Selected()|, r) && SplitBy(r.disagreements, id) > 0
    ensures Generates(c, id)
  {
    var mine := Members(r.disagreements, DisagreementGenerator(), id);
    MembersHaveKey(r.disagreements, DisagreementGenerator(), id);
    assert mine[0] in mine;
    RowsNameGenerators(c, r);
  }

  lemma GeneratorsReported(c: Campaign, r: Run, g: nat)
    requires Rejection(c).None? && AccountsFor(JudgedIn(c), |c.generators|, |c.Selected()|, r)
    requires |c.Selected()| > 0 && g < |c.generators|
    ensures LabeledBy(r.labeled, c.generators[g].id) + SplitBy(r.disagreements, c.generators[g].id) > 0
  {
    assert Earlier(0, g, |c.Selected()|, 0);
    assert Placed(JudgedIn(c), r, 0, g);
    if e :| e in r.labeled && JudgedIn(c)(0, g, Agreed(e)) {
      JudgedBy(c, 0, g, Agreed(e));
      JudgedNames(c, 0, g, Agreed(e));
      MemberCounted(r.labeled, e, EntryGenerator());
    } else {
      var d :| d in r.disagreements && JudgedIn(c)(0, g, Split(d));
      JudgedBy(c, 0, g, Split(d));
      JudgedNames(c, 0, g, Split(d));
      MemberCounted(r.disagreements, d, DisagreementGenerator());
    }
  }

  /** A completed run's report lists exactly the generators whose names a table does not inherit. */
  lemma ReportListsGenerators(c: Campaign, id: string)
    requires Outcome(c).Ok? && |c.Selected()| > 0
    ensures var r := Outcome(c).value;
      Reported(r.labeled, r.disagreements, id) <==> id !in INHERITED_NAMES && Generates(c, id)
  {
    var r := Outcome(c).value;
    CampaignConserves(c);
    if g :| g in c.generators && g.id == id {
      var i :| 0 <= i < |c.generators| && c.generators[i] == g;
      GeneratorsReported(c, r, i);
    } else if LabeledBy(r.labeled, id) > 0 {
      LabeledNames(c, r, id);
    } else if SplitBy(r.disagreements, id) > 0 {
      SplitNames(c, r, id);
    }
  }

  /** With one listed generator and one inherited one, the report exists and falls short. */
  lemma OneListedFallsShort(c: Campaign, own: string, inherited: string)
    requires Outcome(c).Ok? && |c.Selected()| > 0
    requires own !in INHERITED_NAMES && inherited in INHERITED_NAMES
    requires forall id :: Generates(c, id) <==> id == own || id == inherited
    ensures var r := Outcome(c).value;
      exists stats, ids :: PerGeneratorOf(stats, r) && Lists(ids, stats) && Total(ids, stats).generations != r.generations
  {
    var r := Outcome(c).value;
    forall id ensures Reported(r.labeled, r.disagreements, id) <==> id == own {
      ReportListsGenerators(c, id);
    }
    var stats, ids := map[own := StatsOf(r, own)], [own];
    assert PerGeneratorOf(stats, r) && Lists(ids, stats);
    CampaignReportIsComplete(c, stats, ids);
    assert Generates(c, inherited);
  }

  /** The run completes, and its report does not add up to it. */
  lemma ReportFallsShort()
    ensures Outcome(ShortCampaign()).Ok?
    ensures var r := Outcome(ShortCampaign()).value;
      exists stats, ids :: PerGeneratorOf(stats, r) && Lists(ids, stats) && Total(ids, stats).generations != r.generations
  {
    ShortCampaignCompletes();
    InheritedNameIsValidId();
    ShortNames();
    ShortGenerators();
    OneListedFallsShort(ShortCampaign(), "g", "constructor");
  }

  lemma ShortGenerators()
    ensures forall id :: Generates(ShortCampaign(), id) <==> id == "g" || id == "constructor"
  {
    var gs := ShortCampaign().generators;
    assert gs[0] in gs && gs[0].id == "constructor" && gs[1] in gs && gs[1].id == "g";
  }
}
