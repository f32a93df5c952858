/** The run's report: per-generator counts and the campaign floors. */
module CampaignReport {
  import opened Wrappers
  import opened Sorting
  import opened Grouping
  import opened Labelling
  import opened LabelCampaign
  import opened CampaignTheorems

  datatype GeneratorStats = GeneratorStats(generations: nat, labeled: nat, negatives: nat)

  function EntryGenerator(): LabeledEntry -> string { (e: LabeledEntry) => e.generatorId }

  function DisagreementGenerator(): Disagreement -> string { (d: Disagreement) => d.generatorId }

  function IsNegative(): LabeledEntry -> bool { (e: LabeledEntry) => !e.row.success }

  function Negatives(labeled: seq<LabeledEntry>): seq<LabeledEntry> { Filter(labeled, IsNegative()) }

  function LabeledBy(labeled: seq<LabeledEntry>, id: string): nat { |Members(labeled, EntryGenerator(), id)| }

  function SplitBy(disagreements: seq<Disagreement>, id: string): nat { |Members(disagreements, DisagreementGenerator(), id)| }

  function NegativesBy(labeled: seq<LabeledEntry>, id: string): nat { |Members(Negatives(labeled), EntryGenerator(), id)| }

  predicate Reported(labeled: seq<LabeledEntry>, disagreements: seq<Disagreement>, id: string) {
    id !in INHERITED_NAMES && LabeledBy(labeled, id) + SplitBy(disagreements, id) > 0
  }

  /** The table while the loops run: no generation is counted for a labelled row until the end. */
  ghost predicate Counting(stats: map<string, GeneratorStats>, labeled: seq<LabeledEntry>, disagreements: seq<Disagreement>) {
    && (forall id :: id in stats <==> Reported(labeled, disagreements, id))
    && forall id | id in stats ::
         stats[id] == GeneratorStats(SplitBy(disagreements, id), LabeledBy(labeled, id), NegativesBy(labeled, id))
  }

  lemma NegativesSnoc(labeled: seq<LabeledEntry>, e: LabeledEntry, id: string)
    ensures NegativesBy(labeled + [e], id) == NegativesBy(labeled, id) + if e.generatorId == id && !e.row.success then 1 else 0
  {
    FilterSnoc(labeled, e, IsNegative());
    if e.row.success {
      assert Negatives(labeled + [e]) == Negatives(labeled);
    } else {
      MembersSnoc(Negatives(labeled), e, EntryGenerator(), id);
    }
  }

  /** The entry of a row's generator bumped, made first where there is none; inherited names get no entry. */
  function WithRow(stats: map<string, GeneratorStats>, e: LabeledEntry): map<string, GeneratorStats> {
    if e.generatorId in INHERITED_NAMES then stats
    else
      var s := if e.generatorId in stats then stats[e.generatorId] else GeneratorStats(0, 0, 0);
      stats[e.generatorId := s.(labeled := s.labeled + 1, negatives := s.negatives + if e.row.success then 0 else 1)]
  }

  function WithSplit(stats: map<string, GeneratorStats>, d: Disagreement): map<string, GeneratorStats> {
    if d.generatorId in INHERITED_NAMES then stats
    else
      var s := if d.generatorId in stats then stats[d.generatorId] else GeneratorStats(0, 0, 0);
      stats[d.generatorId := s.(generations := s.generations + 1)]
  }

  lemma CountLabeled(stats: map<string, GeneratorStats>, labeled: seq<LabeledEntry>, e: LabeledEntry)
    requires Counting(stats, labeled, [])
    ensures Counting(WithRow(stats, e), labeled + [e], [])
  {
    forall id ensures
      && LabeledBy(labeled + [e], id) == LabeledBy(labeled, id) + (if e.generatorId == id then 1 else 0)
      && NegativesBy(labeled + [e], id) == NegativesBy(labeled, id) + if e.generatorId == id && !e.row.success then 1 else 0
    {
      MembersSnoc(labeled, e, EntryGenerator(), id);
      NegativesSnoc(labeled, e, id);
    }
    NegativesAreLabeled(labeled, e.generatorId);
  }

  lemma {:induction false} NegativesAreLabeled(labeled: seq<LabeledEntry>, id: string)
    ensures NegativesBy(labeled, id) <= LabeledBy(labeled, id)
  {
    if |labeled| > 0 {
      var init, e := labeled[..|labeled| - 1], labeled[|labeled| - 1];
      NegativesAreLabeled(init, id);
      assert labeled == init + [e];
      MembersSnoc(init, e, EntryGenerator(), id);
      NegativesSnoc(init, e, id);
    }
  }

  lemma CountSplit(stats: map<string, GeneratorStats>, labeled: seq<LabeledEntry>, disagreements: seq<Disagreement>, d: Disagreement)
    requires Counting(stats, labeled, disagreements)
    ensures Counting(WithSplit(stats, d), labeled, disagreements + [d])
  {
    forall id ensures SplitBy(disagreements + [d], id) == SplitBy(disagreements, id) + if d.generatorId == id then 1 else 0 {
      MembersSnoc(disagreements, d, DisagreementGenerator(), id);
    }
    NegativesAreLabeled(labeled, d.generatorId);
  }

  function StatsOf(r: Run, id: string): GeneratorStats {
    GeneratorStats(LabeledBy(r.labeled, id) + SplitBy(r.disagreements, id), LabeledBy(r.labeled, id), NegativesBy(r.labeled, id))
  }

  ghost predicate PerGeneratorOf(stats: map<string, GeneratorStats>, r: Run) {
    && (forall id :: id in stats <==> Reported(r.labeled, r.disagreements, id))
    && forall id | id in stats :: stats[id] == StatsOf(r, id)
  }

  /** Three passes: rows, disagreements, then rows added to each generator's generations. */
  method PerGenerator(r: Run) returns (stats: map<string, GeneratorStats>)
    ensures PerGeneratorOf(stats, r)
  {
    stats := map[];
    var i := 0;
    while i < |r.labeled|
      invariant 0 <= i <= |r.labeled|
      invariant Counting(stats, r.labeled[..i], [])
    {
      var e := r.labeled[i];
      CountLabeled(stats, r.labeled[..i], e);
      assert r.labeled[..i + 1] == r.labeled[..i] + [e];
      stats := WithRow(stats, e);
      i := i + 1;
    }
    assert r.labeled[..i] == r.labeled;
    stats := CountDisagreements(r, stats);
    stats := AddLabeledGenerations(stats);
  }

  method CountDisagreements(r: Run, before: map<string, GeneratorStats>) returns (stats: map<string, GeneratorStats>)
    requires Counting(before, r.labeled, [])
    ensures Counting(stats, r.labeled, r.disagreements)
  {
    stats := before;
    var i := 0;
    while i < |r.disagreements|
      invariant 0 <= i <= |r.disagreements|
      invariant Counting(stats, r.labeled, r.disagreements[..i])
    {
      var d := r.disagreements[i];
      CountSplit(stats, r.labeled, r.disagreements[..i], d);
      assert r.disagreements[..i + 1] == r.disagreements[..i] + [d];
      stats := WithSplit(stats, d);
      i := i + 1;
    }
    assert r.disagreements[..i] == r.disagreements;
  }

  method AddLabeledGenerations(before: map<string, GeneratorStats>) returns (stats: map<string, GeneratorStats>)
    ensures stats.Keys == before.Keys
    ensures forall id | id in stats :: stats[id] == before[id].(generations := before[id].generations + before[id].labeled)
  {
    stats := map id | id in before :: before[id].(generations := before[id].generations + before[id].labeled);
  }

  // ---------------------------------------------------------------------------
  // Totals
  // ---------------------------------------------------------------------------

  function Total(ids: seq<string>, stats: map<string, GeneratorStats>): GeneratorStats
    requires forall id | id in ids :: id in stats
  {
    if |ids| == 0 then GeneratorStats(0, 0, 0)
    else
      var s, before := stats[ids[|ids| - 1]], Total(ids[..|ids| - 1], stats);
      GeneratorStats(before.generations + s.generations, before.labeled + s.labeled, before.negatives + s.negatives)
  }

  /** The report's keys, each once. */
  ghost predicate Lists(ids: seq<string>, stats: map<string, GeneratorStats>) {
    && (forall id :: id in ids <==> id in stats)
    && forall i, j | 0 <= i < j < |ids| :: ids[i] != ids[j]
  }

  function Among<T>(key: T -> string, ids: seq<string>): T -> bool { (x: T) => key(x) in ids }

  /** Items under one of some distinct keys are the items under each key together. */
  lemma {:induction false} CountOneMore<T>(s: seq<T>, key: T -> string, ids: seq<string>, id: string)
    requires id !in ids
    ensures |Filter(s, Among(key, ids + [id]))| == |Filter(s, Among(key, ids))| + |Members(s, key, id)|
  {
    if |s| > 0 {
      var init, x := s[..|s| - 1], s[|s| - 1];
      CountOneMore(init, key, ids, id);
      assert s == init + [x];
      FilterSnoc(init, x, Among(key, ids + [id]));
      FilterSnoc(init, x, Among(key, ids));
      MembersSnoc(init, x, key, id);
    }
  }

  lemma {:induction false} TotalCounts(ids: seq<string>, stats: map<string, GeneratorStats>, r: Run)
    requires forall id | id in ids :: id in stats && stats[id] == StatsOf(r, id)
    requires forall i, j | 0 <= i < j < |ids| :: ids[i] != ids[j]
    ensures Total(ids, stats).labeled == |Filter(r.labeled, Among(EntryGenerator(), ids))|
    ensures Total(ids, stats).negatives == |Filter(Negatives(r.labeled), Among(EntryGenerator(), ids))|
    ensures Total(ids, stats).generations == Total(ids, stats).labeled
      + |Filter(r.disagreements, Among(DisagreementGenerator(), ids))|
  {
    if |ids| == 0 {
      FilterUniform(r.labeled, Among(EntryGenerator(), ids), false);
      FilterUniform(Negatives(r.labeled), Among(EntryGenerator(), ids), false);
      FilterUniform(r.disagreements, Among(DisagreementGenerator(), ids), false);
    } else {
      var init, id := ids[..|ids| - 1], ids[|ids| - 1];
      TotalCounts(init, stats, r);
      assert ids == init + [id];
      CountOneMore(r.labeled, EntryGenerator(), init, id);
      CountOneMore(Negatives(r.labeled), EntryGenerator(), init, id);
      CountOneMore(r.disagreements, DisagreementGenerator(), init, id);
      assert id in ids && stats[id] == StatsOf(r, id);
    }
  }

  lemma {:induction false} AllKept<T>(s: seq<T>, p: T -> bool)
    ensures |Filter(s, p)| <= |s|
    ensures |Filter(s, p)| == |s| <==> forall x | x in s :: p(x)
  {
    if |s| > 0 {
      var init, x := s[..|s| - 1], s[|s| - 1];
      AllKept(init, p);
      assert s == init + [x];
      FilterSnoc(init, x, p);
    }
  }

  lemma MemberCounted<T>(s: seq<T>, x: T, key: T -> string)
    requires x in s
    ensures |Members(s, key, key(x))| > 0
  {
    MembersHaveKey(s, key, key(x));
    assert x in Members(s, key, key(x));
  }

  /** The ids the run's rows and disagreements carry. */
  predicate NamesSafe(r: Run) {
    (forall e | e in r.labeled :: e.generatorId !in INHERITED_NAMES) && forall d | d in r.disagreements :: d.generatorId !in INHERITED_NAMES
  }

  lemma ListedMeansSafe(r: Run, stats: map<string, GeneratorStats>, ids: seq<string>)
    requires PerGeneratorOf(stats, r) && Lists(ids, stats)
    ensures forall e | e in r.labeled :: e.generatorId in ids <==> e.generatorId !in INHERITED_NAMES
    ensures forall d | d in r.disagreements :: d.generatorId in ids <==> d.generatorId !in INHERITED_NAMES
  {
    forall e | e in r.labeled ensures e.generatorId in ids <==> e.generatorId !in INHERITED_NAMES {
      MemberCounted(r.labeled, e, EntryGenerator());
      assert e.generatorId in ids <==> e.generatorId in stats;
    }
    forall d | d in r.disagreements ensures d.generatorId in ids <==> d.generatorId !in INHERITED_NAMES {
      MemberCounted(r.disagreements, d, DisagreementGenerator());
      assert d.generatorId in ids <==> d.generatorId in stats;
    }
  }

  /** The per-generator generations add up to the run's exactly when no row carries an inherited name; then all columns do. */
  lemma ReportTotalsMatch(r: Run, stats: map<string, GeneratorStats>, ids: seq<string>)
    requires PerGeneratorOf(stats, r) && Lists(ids, stats)
    requires r.generations == |r.labeled| + |r.disagreements|
    ensures Total(ids, stats).generations == r.generations <==> NamesSafe(r)
    ensures NamesSafe(r) ==> Total(ids, stats) == GeneratorStats(r.generations, |r.labeled|, |Negatives(r.labeled)|)
  {
    TotalCounts(ids, stats, r);
    ListedMeansSafe(r, stats, ids);
    AllKept(r.labeled, Among(EntryGenerator(), ids));
    AllKept(r.disagreements, Among(DisagreementGenerator(), ids));
    AllKept(Negatives(r.labeled), Among(EntryGenerator(), ids));
    FilterMembers(r.labeled, IsNegative());
  }

  /** A completed run's report is complete exactly when no generator answers to an inherited name, or no task was selected. */
  lemma CampaignReportIsComplete(c: Campaign, stats: map<string, GeneratorStats>, ids: seq<string>)
    requires Outcome(c).Ok? && PerGeneratorOf(stats, Outcome(c).value) && Lists(ids, stats)
    ensures Total(ids, stats).generations == Outcome(c).value.generations
      <==> (|c.Selected()| == 0 || forall g | g in c.generators :: g.id !in INHERITED_NAMES)
  {
    var r := Outcome(c).value;
    CampaignConserves(c);
    ReportTotalsMatch(r, stats, ids);
    if |c.Selected()| == 0 {
      assert |c.Selected()| * |c.generators| == 0;
    } else {
      SafeNamesAreGenerators(c, r);
    }
  }

  /** Rows and disagreements carry generators' ids. */
  lemma RowsNameGenerators(c: Campaign, r: Run)
    requires Rejection(c).None? && AccountsFor(JudgedIn(c), |c.generators|, |c.Selected()|, r)
    ensures forall e | e in r.labeled :: exists g | g in c.generators :: g.id == e.generatorId
    ensures forall d | d in r.disagreements :: exists g | g in c.generators :: g.id == d.generatorId
  {
    forall e | e in r.labeled ensures exists g | g in c.generators :: g.id == e.generatorId {
      var t, g := OriginOf(c, Agreed(e));
      JudgedNames(c, t, g, Agreed(e));
    }
    forall d | d in r.disagreements ensures exists g | g in c.generators :: g.id == d.generatorId {
      var t, g := OriginOf(c, Split(d));
      JudgedNames(c, t, g, Split(d));
    }
  }

  lemma SafeNamesAreGenerators(c: Campaign, r: Run)
    requires Rejection(c).None? && |c.Selected()| > 0 && AccountsFor(JudgedIn(c), |c.generators|, |c.Selected()|, r)
    ensures NamesSafe(r) <==> forall g | g in c.generators :: g.id !in INHERITED_NAMES
  {
    var n := |c.Selected()|;
    RowsNameGenerators(c, r);
    if NamesSafe(r) {
      forall g | g in c.generators ensures g.id !in INHERITED_NAMES {
        var i :| 0 <= i < |c.generators| && c.generators[i] == g;
        assert Earlier(0, i, n, 0);
        assert Placed(JudgedIn(c), r, 0, i);
        forall v | JudgedIn(c)(0, i, v) ensures NameIn(v) == g.id {
          JudgedBy(c, 0, i, v);
          JudgedNames(c, 0, i, v);
        }
      }
    }
  }

  function NameIn(v: Verdict): string { if v.Agreed? then v.entry.generatorId else v.disagreement.generatorId }

  lemma JudgedNames(c: Campaign, t: nat, g: nat, v: Verdict)
    requires Judged(c, t, g, v)
    ensures NameIn(v) == c.generators[g].id
  {
  }

  // ---------------------------------------------------------------------------
  // Floors
  // ---------------------------------------------------------------------------

  const MIN_NEGATIVE_FRACTION := 0.2
  const MIN_DISTINCT_FAILURE_SCORES := 5

  datatype Violation = NoLabeledRows | TooFewNegatives(negatives: nat, total: nat) | TooFewFailureScores(distinct: nat)

  function FailureScores(labeled: seq<LabeledEntry>): set<real> { set e | e in Negatives(labeled) :: e.judgeScore }

  /** There are rows, enough of them negative, with enough different failure scores. */
  predicate MeetsFloors(labeled: seq<LabeledEntry>, minNegativeFraction: real, minDistinct: int) {
    && |labeled| > 0
    && |Negatives(labeled)| as real >= minNegativeFraction * |labeled| as real
    && |FailureScores(labeled)| >= minDistinct
  }

  method ValidateCampaignFloors(labeled: seq<LabeledEntry>, minNegativeFraction: real, minDistinct: int) returns (violations: seq<Violation>)
    ensures violations == [] <==> MeetsFloors(labeled, minNegativeFraction, minDistinct)
    ensures NoLabeledRows in violations <==> |labeled| == 0
  {
    violations := [];
    if |labeled| == 0 {
      return [NoLabeledRows];
    }
    var negatives := Negatives(labeled);
    var fraction := |negatives| as real / |labeled| as real;
    FractionBelow(|negatives| as real, |labeled| as real, minNegativeFraction);
    if fraction < minNegativeFraction {
      violations := violations + [TooFewNegatives(|negatives|, |labeled|)];
    }
    if |FailureScores(labeled)| < minDistinct {
      violations := violations + [TooFewFailureScores(|FailureScores(labeled)|)];
    }
  }

  lemma FractionBelow(a: real, n: real, floor: real)
    requires n > 0.0
    ensures a / n < floor <==> a < floor * n
  {
    var r := a / n;
    assert r * n == a;
    assert (r - floor) * n == a - floor * n;
  }

  /** With pass score 1 every failure scores 0, so a completed run never meets the default floors. */
  lemma PassScoreOneNeverValid(c: Campaign)
    requires Outcome(c).Ok? && c.options.PassScore() == 1
    ensures |FailureScores(Outcome(c).value.labeled)| < MIN_DISTINCT_FAILURE_SCORES
  {
    var scores := FailureScores(Outcome(c).value.labeled);
    LabeledRowsAreSound(c);
    FilterMembers(Outcome(c).value.labeled, IsNegative());
    forall s | s in scores ensures s == 0.0 {
      var e :| e in Negatives(Outcome(c).value.labeled) && e.judgeScore == s;
    }
    SubsetSize(scores, {0.0});
  }

  /** The rounded mean of n scores with this sum. */
  function MeanOfSum(sum: int, n: nat): real
    requires n > 0
  {
    Round1(sum as real / n as real)
  }

  /** The rounded means of the sums below k. */
  function Means(n: nat, k: nat): set<real>
    requires n > 0
  {
    if k == 0 then {} else Means(n, k - 1) + {MeanOfSum(k - 1, n)}
  }

  lemma {:induction false} MeansCount(n: nat, k: nat)
    requires n > 0
    ensures |Means(n, k)| <= k
    ensures forall sum: nat | sum < k :: MeanOfSum(sum, n) in Means(n, k)
  {
    if k > 0 {
      MeansCount(n, k - 1);
    }
  }

  lemma LowMeanIsFew(scores: seq<GraderScore>, top: nat)
    requires |scores| > 0 && forall x | x in scores :: 0 <= x.score <= top
    ensures MeanScore(scores) in Means(|scores|, top * |scores| + 1)
  {
    var n, sum := |scores|, ScoreSum(scores);
    SumBounds(scores, 0, top);
    assert 0 * n == 0;
    MeanListed(n, top * n + 1, sum);
  }

  lemma MeanListed(n: nat, k: nat, sum: int)
    requires n > 0 && 0 <= sum < k
    ensures MeanOfSum(sum, n) in Means(n, k)
  {
    MeansCount(n, k);
  }

  /** The judge score of a failed row is one of few means: its scores all lie below the pass score. */
  lemma FailureScoreIsMean(c: Campaign, e: LabeledEntry)
    requires Outcome(c).Ok? && e in Outcome(c).value.labeled && !e.row.success && |e.graderIds| > 0
    ensures c.options.PassScore() >= 1
    ensures e.judgeScore in Means(|e.graderIds|, (c.options.PassScore() - 1) * |e.graderIds| + 1)
  {
    LabeledRowsAreSound(c);
    var t: nat, g: nat, scores :| InRange(c, t, g) && SoundEntry(c, t, g, e, scores);
    LowMeanIsFew(scores, c.options.PassScore() - 1);
  }

  /**
   * With n graders to every failed row a completed run has at most n times (pass score - 1) + 1 different
   * failure scores: pass score 2 stays below the default floor of five with two graders and with three.
   */
  lemma FailureScoresAreFew(c: Campaign, n: nat)
    requires Outcome(c).Ok? && n > 0
    requires forall e | e in Outcome(c).value.labeled && !e.row.success :: |e.graderIds| == n
    ensures c.options.PassScore() >= 1
    ensures |FailureScores(Outcome(c).value.labeled)| <= (c.options.PassScore() - 1) * n + 1
    ensures (c.options.PassScore() - 1) * n < 4 ==> |FailureScores(Outcome(c).value.labeled)| < MIN_DISTINCT_FAILURE_SCORES
  {
    var labeled := Outcome(c).value.labeled;
    FilterMembers(labeled, IsNegative());
    var few := Means(n, (c.options.PassScore() - 1) * n + 1);
    MeansCount(n, (c.options.PassScore() - 1) * n + 1);
    forall x | x in FailureScores(labeled) ensures x in few {
      var e :| e in Negatives(labeled) && e.judgeScore == x;
      FailureScoreIsMean(c, e);
    }
    SubsetSize(FailureScores(labeled), few);
  }
}
