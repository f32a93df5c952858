/** The campaign report's counts and floors, said by the rows' positions. */
module ReportCounts {
  import opened Wrappers
  import opened Sorting
  import opened Grouping
  import opened LabelCampaign
  import opened CampaignReport

  /** The positions at which a list satisfies a predicate. */
  ghost function Where<T>(s: seq<T>, p: T -> bool): set<int> { set i | 0 <= i < |s| && p(s[i]) }

  lemma {:induction false} FilterCounts<T>(s: seq<T>, p: T -> bool)
    ensures |Filter(s, p)| == |Where(s, p)|
  {
    if |s| == 0 {
      assert Where(s, p) == {};
    } else {
      var n := |s| - 1;
      var init, x := s[..n], s[n];
      assert s == init + [x];
      FilterCounts(init, p);
      FilterSnoc(init, x, p);
      assert Where(s, p) == Where(init, p) + if p(x) then {n} else {};
    }
  }

  function RowOf(id: string): LabeledEntry -> bool { (e: LabeledEntry) => e.generatorId == id }

  function FailedRowOf(id: string): LabeledEntry -> bool { (e: LabeledEntry) => e.generatorId == id && !e.row.success }

  function SplitOf(id: string): Disagreement -> bool { (d: Disagreement) => d.generatorId == id }

  /** A generator's entry: all it generated, what was labelled, and what was labelled a failure. */
  ghost predicate CountsAre(s: GeneratorStats, r: Run, id: string) {
    && s.labeled == |Where(r.labeled, RowOf(id))| && s.negatives == |Where(r.labeled, FailedRowOf(id))|
    && s.generations == |Where(r.labeled, RowOf(id))| + |Where(r.disagreements, SplitOf(id))|
  }

  lemma {:induction false} NegativesBySame(labeled: seq<LabeledEntry>, id: string)
    ensures NegativesBy(labeled, id) == |Filter(labeled, FailedRowOf(id))|
  {
    if |labeled| > 0 {
      var init, e := labeled[..|labeled| - 1], labeled[|labeled| - 1];
      assert labeled == init + [e];
      NegativesBySame(init, id);
      NegativesSnoc(init, e, id);
      FilterSnoc(init, e, FailedRowOf(id));
    }
  }

  lemma StatsCount(r: Run, id: string)
    ensures CountsAre(StatsOf(r, id), r, id)
  {
    MembersAreFiltered(r.labeled, EntryGenerator(), id, RowOf(id));
    MembersAreFiltered(r.disagreements, DisagreementGenerator(), id, SplitOf(id));
    NegativesBySame(r.labeled, id);
    FilterCounts(r.labeled, RowOf(id));
    FilterCounts(r.labeled, FailedRowOf(id));
    FilterCounts(r.disagreements, SplitOf(id));
  }

  lemma {:induction false} MembersAreFiltered<T>(s: seq<T>, key: T -> string, id: string, p: T -> bool)
    requires forall x | x in s :: p(x) <==> key(x) == id
    ensures Members(s, key, id) == Filter(s, p)
  {
    if |s| > 0 {
      var init, x := s[..|s| - 1], s[|s| - 1];
      assert s == init + [x] && x in s;
      MembersAreFiltered(init, key, id, p);
      MembersSnoc(init, x, key, id);
      FilterSnoc(init, x, p);
    }
  }

  lemma SomeWhere<T>(s: seq<T>, p: T -> bool)
    ensures |Where(s, p)| > 0 <==> exists x | x in s :: p(x)
  {
    if x :| x in s && p(x) {
      var i :| 0 <= i < |s| && s[i] == x;
      assert i in Where(s, p);
    }
    if |Where(s, p)| > 0 {
      var i :| i in Where(s, p);
      assert s[i] in s;
    }
  }

  /** The report lists the generators that have a row or a disagreement, inherited names apart, each with its counts. */
  lemma ReportCountsRows(r: Run, stats: map<string, GeneratorStats>)
    requires PerGeneratorOf(stats, r)
    ensures forall id :: id in stats <==>
      && id !in INHERITED_NAMES
      && ((exists e | e in r.labeled :: e.generatorId == id) || exists d | d in r.disagreements :: d.generatorId == id)
    ensures forall id | id in stats :: CountsAre(stats[id], r, id)
  {
    forall id ensures CountsAre(StatsOf(r, id), r, id)
      ensures LabeledBy(r.labeled, id) > 0 <==> exists e | e in r.labeled :: e.generatorId == id
      ensures SplitBy(r.disagreements, id) > 0 <==> exists d | d in r.disagreements :: d.generatorId == id
    {
      StatsCount(r, id);
      SomeWhere(r.labeled, RowOf(id));
      SomeWhere(r.disagreements, SplitOf(id));
    }
  }

  // ---------------------------------------------------------------------------
  // Floors
  // ---------------------------------------------------------------------------

  function Failed(): LabeledEntry -> bool { (e: LabeledEntry) => !e.row.success }

  /** The judge scores of the failed rows. */
  ghost function FailedScores(labeled: seq<LabeledEntry>): set<real> { set e | e in labeled && !e.row.success :: e.judgeScore }

  /** The floors: some row, the given share of them failed, and so many different scores among those. */
  lemma FloorsCount(labeled: seq<LabeledEntry>, fraction: real, distinct: int)
    ensures MeetsFloors(labeled, fraction, distinct) <==>
      |labeled| > 0 && |Where(labeled, Failed())| as real >= fraction * |labeled| as real && |FailedScores(labeled)| >= distinct
  {
    FilterAgrees(labeled, IsNegative(), Failed());
    FilterCounts(labeled, Failed());
    FilterMembers(labeled, Failed());
    assert FailureScores(labeled) == FailedScores(labeled);
  }

  /** The default floors: at least a fifth failed, with five different scores. */
  lemma DefaultFloorsCount(labeled: seq<LabeledEntry>)
    ensures MeetsFloors(labeled, MIN_NEGATIVE_FRACTION, MIN_DISTINCT_FAILURE_SCORES) <==>
      |labeled| > 0 && 5 * |Where(labeled, Failed())| >= |labeled| && |FailedScores(labeled)| >= 5
  {
    FloorsCount(labeled, 0.2, 5);
  }
}
