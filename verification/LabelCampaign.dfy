/** The adversarial labelling run: every generator answers every task, blinded graders vote. */
module LabelCampaign {
  import opened Wrappers
  import opened Sorting
  import opened Labelling

  const DEFAULT_SEED := "sp-282-adversarial-labeling"
  const DEFAULT_HOLDOUT_PERCENT := 20.0
  const DEFAULT_PASS_SCORE := 7

  datatype RunOptions = RunOptions(
    seed: Option<string>, holdoutPercent: Option<real>, passScore: Option<int>, maxGraders: Option<int>, limit: Option<int>)
  {
    function Seed(): string { seed.GetOr(DEFAULT_SEED) }
    function HoldoutPercent(): real { holdoutPercent.GetOr(DEFAULT_HOLDOUT_PERCENT) }
    function PassScore(): int { passScore.GetOr(DEFAULT_PASS_SCORE) }
    function MaxGraders(): int { maxGraders.GetOr(MAX_GRADERS) }
  }

  /** A run's inputs. The clients are arbitrary: what each call returns may depend on when it is made. */
  datatype Campaign = Campaign(
    tasks: seq<Task>, generators: seq<Client>, graders: seq<Client>, options: RunOptions,
    generate: (nat, nat) -> Option<string>, grade: (nat, nat, string) -> Option<int>,
    digest: SessionDigest, sampleId: (string, string) -> string)
  {
    /** The tasks the limit leaves. */
    function Selected(): (s: seq<Task>)
      ensures s <= tasks
    {
      if options.limit.Some? && 0 <= options.limit.value <= |tasks| then tasks[..options.limit.value] else tasks
    }
  }

  datatype CampaignError =
    | TooFewGenerators | GraderCountOutOfRange | InvalidClientId | DuplicateGeneratorId | DuplicateGraderId
    | HoldoutOutOfRange | PassScoreOutOfRange | MaxGradersOutOfRange
    | EmptyResponse(task: nat, generator: nat) | TooFewEligibleGraders(task: nat, generator: nat)
    | GraderFailed(task: nat, generator: nat, graderId: string) | EmptySessionId(task: nat)

  datatype LabeledEntry = LabeledEntry(
    row: LabelRow, holdout: bool, taskId: string, generatorId: string, graderIds: seq<string>, judgeScore: real)

  datatype Disagreement = Disagreement(taskId: string, generatorId: string, graderScores: seq<GraderScore>)

  datatype Verdict = Agreed(entry: LabeledEntry) | Split(disagreement: Disagreement)

  datatype Run = Run(labeled: seq<LabeledEntry>, disagreements: seq<Disagreement>, generations: nat, tasksProcessed: nat)

  /** A grader never scores itself or a generator with its own model. */
  predicate IsGraderExcluded(grader: Client, generator: Client) {
    grader.id == generator.id
    || (grader.providerModel.Some? && generator.providerModel.Some?
        && |grader.providerModel.value| > 0 && grader.providerModel == generator.providerModel)
  }

  function MayJudge(generator: Client): Client -> bool { (grader: Client) => !IsGraderExcluded(grader, generator) }

  function Eligible(graders: seq<Client>, generator: Client): seq<Client> { Filter(graders, MayJudge(generator)) }

  function Used(graders: seq<Client>, generator: Client, maxGraders: int): seq<Client> {
    var eligible := Eligible(graders, generator);
    if 0 <= maxGraders < |eligible| then eligible[..maxGraders] else eligible
  }

  // ---------------------------------------------------------------------------
  // Option checks
  // ---------------------------------------------------------------------------

  predicate DistinctIds(clients: seq<Client>) { forall i, j | 0 <= i < j < |clients| :: clients[i].id != clients[j].id }

  predicate ValidIds(clients: seq<Client>) { forall c | c in clients :: ValidClientId(c.id) }

  /** The first check that fails, in the order the run makes them. */
  function Rejection(c: Campaign): Option<CampaignError> {
    if |c.generators| < MIN_GENERATORS then Some(TooFewGenerators)
    else if !(MIN_GRADERS <= |c.graders| <= MAX_GRADERS) then Some(GraderCountOutOfRange)
    else if !ValidIds(c.generators) || !ValidIds(c.graders) then Some(InvalidClientId)
    else if !DistinctIds(c.generators) then Some(DuplicateGeneratorId)
    else if !DistinctIds(c.graders) then Some(DuplicateGraderId)
    else if !(0.0 <= c.options.HoldoutPercent() <= 100.0) then Some(HoldoutOutOfRange)
    else if !(SCORE_MIN < c.options.PassScore() <= SCORE_MAX) then Some(PassScoreOutOfRange)
    else if !(MIN_GRADERS <= c.options.MaxGraders() <= MAX_GRADERS) then Some(MaxGradersOutOfRange)
    else None
  }

  method HasUniqueIds(clients: seq<Client>) returns (unique: bool)
    ensures unique == DistinctIds(clients)
  {
    var seen: set<string> := {};
    var i := 0;
    while i < |clients|
      invariant 0 <= i <= |clients|
      invariant forall id :: id in seen <==> exists j | 0 <= j < i :: clients[j].id == id
      invariant DistinctIds(clients[..i])
    {
      if clients[i].id in seen {
        return false;
      }
      seen := seen + {clients[i].id};
      assert forall j, k | 0 <= j < k < i :: clients[..i][j].id != clients[..i][k].id;
      i := i + 1;
    }
    assert clients[..|clients|] == clients;
    return true;
  }

  method CheckCampaign(c: Campaign) returns (rejection: Option<CampaignError>)
    ensures rejection == Rejection(c)
  {
    if |c.generators| < MIN_GENERATORS {
      return Some(TooFewGenerators);
    }
    if |c.graders| < MIN_GRADERS || |c.graders| > MAX_GRADERS {
      return Some(GraderCountOutOfRange);
    }
    if !ValidIds(c.generators) || !ValidIds(c.graders) {
      return Some(InvalidClientId);
    }
    var uniqueGenerators := HasUniqueIds(c.generators);
    if !uniqueGenerators {
      return Some(DuplicateGeneratorId);
    }
    var uniqueGraders := HasUniqueIds(c.graders);
    if !uniqueGraders {
      return Some(DuplicateGraderId);
    }
    if c.options.HoldoutPercent() < 0.0 || c.options.HoldoutPercent() > 100.0 {
      return Some(HoldoutOutOfRange);
    }
    if c.options.PassScore() <= SCORE_MIN || c.options.PassScore() > SCORE_MAX {
      return Some(PassScoreOutOfRange);
    }
    if c.options.MaxGraders() < MIN_GRADERS || c.options.MaxGraders() > MAX_GRADERS {
      return Some(MaxGradersOutOfRange);
    }
    return None;
  }

  // ---------------------------------------------------------------------------
  // One generation
  // ---------------------------------------------------------------------------

  predicate InRange(c: Campaign, t: nat, g: nat) { t < |c.tasks| && g < |c.generators| }

  function Graded(c: Campaign, t: nat, g: nat, graderId: string): Result<GraderScore, CampaignError> {
    var score := NormalizeGraderScore(c.grade(t, g, graderId));
    if score.None? then Err(GraderFailed(t, g, graderId)) else Ok(GraderScore(graderId, score.value))
  }

  function GradedAll(c: Campaign, t: nat, g: nat, used: seq<Client>): (r: seq<Result<GraderScore, CampaignError>>)
    ensures |r| == |used|
    ensures forall i | 0 <= i < |used| :: r[i] == Graded(c, t, g, used[i].id)
  {
    seq(|used|, i requires 0 <= i < |used| => Graded(c, t, g, used[i].id))
  }

  predicate Passes(s: GraderScore, passScore: int) { s.score >= passScore }

  predicate Unanimous(scores: seq<GraderScore>, passScore: int)
    requires |scores| > 0
  {
    forall s | s in scores :: Passes(s, passScore) == Passes(scores[0], passScore)
  }

  function GraderIds(scores: seq<GraderScore>): (r: seq<string>)
    ensures |r| == |scores| && forall i | 0 <= i < |scores| :: r[i] == scores[i].graderId
  {
    seq(|scores|, i requires 0 <= i < |scores| => scores[i].graderId)
  }

  function GraderSignals(ids: seq<string>): (r: seq<Signal>)
    ensures |r| == |ids| && forall i | 0 <= i < |ids| :: r[i] == GraderSignal(ids[i])
  {
    seq(|ids|, i requires 0 <= i < |ids| => GraderSignal(ids[i]))
  }

  function EntryOf(c: Campaign, t: nat, g: nat, scores: seq<GraderScore>, holdout: bool): LabeledEntry
    requires InRange(c, t, g) && |scores| > 0
  {
    var task, generatorId := c.tasks[t], c.generators[g].id;
    var success, judgeScore := Passes(scores[0], c.options.PassScore()), MeanScore(scores);
    var signals := [LlmJudge, GeneratorSignal(generatorId)] + GraderSignals(GraderIds(scores))
      + [if |scores| == MIN_GRADERS then DualJudgeAgreement else MultiJudgeAgreement, JudgeScore(judgeScore)]
      + (if success then [] else [FailureScore(judgeScore)])
      + [if holdout then SessionHoldout else SessionFit];
    LabeledEntry(LabelRow(c.sampleId(task.taskId, generatorId), task.features, success, task.tier, signals),
                 holdout, task.taskId, generatorId, GraderIds(scores), judgeScore)
  }

  /** Unanimous votes label the generation; anything else is set aside, never coerced to a majority. */
  function Decide(c: Campaign, t: nat, g: nat, scores: seq<GraderScore>): Result<Verdict, CampaignError>
    requires InRange(c, t, g) && |scores| > 0
  {
    if !Unanimous(scores, c.options.PassScore()) then
      Ok(Split(Disagreement(c.tasks[t].taskId, c.generators[g].id, scores)))
    else
      match AssignSessionHoldout(c.tasks[t].sessionId, c.options.Seed(), c.options.HoldoutPercent(), c.digest)
      case None => Err(EmptySessionId(t))
      case Some(holdout) => Ok(Agreed(EntryOf(c, t, g, scores, holdout)))
  }

  function Judge(c: Campaign, t: nat, g: nat): Result<Verdict, CampaignError>
    requires InRange(c, t, g) && c.options.MaxGraders() >= MIN_GRADERS
  {
    var response := c.generate(t, g);
    if response.None? || IsBlank(response.value) then Err(EmptyResponse(t, g))
    else
      var used := Used(c.graders, c.generators[g], c.options.MaxGraders());
      if |Eligible(c.graders, c.generators[g])| < MIN_GRADERS then Err(TooFewEligibleGraders(t, g))
      else
        match Collect(GradedAll(c, t, g, used))
        case Err(e) => Err(e)
        case Ok(scores) => Decide(c, t, g, scores)
  }

  method GradeResponse(c: Campaign, t: nat, g: nat, used: seq<Client>) returns (r: Result<seq<GraderScore>, CampaignError>)
    ensures r == Collect(GradedAll(c, t, g, used))
  {
    var scores := [];
    ghost var all := GradedAll(c, t, g, used);
    var i := 0;
    while i < |used|
      invariant 0 <= i <= |used|
      invariant Collect(all[..i]) == Ok(scores)
    {
      var score := NormalizeGraderScore(c.grade(t, g, used[i].id));
      CollectSnoc(all, i);
      if score.None? {
        CollectStops(all, i + 1);
        return Err(GraderFailed(t, g, used[i].id));
      }
      scores := scores + [GraderScore(used[i].id, score.value)];
      i := i + 1;
    }
    assert all[..|used|] == all;
    return Ok(scores);
  }

  method JudgeGeneration(c: Campaign, t: nat, g: nat) returns (r: Result<Verdict, CampaignError>)
    requires InRange(c, t, g) && c.options.MaxGraders() >= MIN_GRADERS
    ensures r == Judge(c, t, g)
  {
    var response := c.generate(t, g);
    if response.None? || IsBlank(response.value) {
      return Err(EmptyResponse(t, g));
    }
    var eligible := Eligible(c.graders, c.generators[g]);
    var used := Used(c.graders, c.generators[g], c.options.MaxGraders());
    if |eligible| < MIN_GRADERS {
      return Err(TooFewEligibleGraders(t, g));
    }
    var graded := GradeResponse(c, t, g, used);
    if graded.Err? {
      return Err(graded.error);
    }
    r := Decide(c, t, g, graded.value);
  }

  // ---------------------------------------------------------------------------
  // The run
  // ---------------------------------------------------------------------------

  /** The result of judging each generation. */
  type Judging = (nat, nat) -> Result<Verdict, CampaignError>

  function Judgements(c: Campaign): Judging {
    (t: nat, g: nat) =>
      if InRange(c, t, g) && c.options.MaxGraders() >= MIN_GRADERS then Judge(c, t, g) else Err(MaxGradersOutOfRange)
  }

  /** Verdicts of t whole tasks and g of the next one's m generations, in the loops' order, or the first failure. */
  function Verdicts(judge: Judging, m: nat, t: nat, g: nat): Result<seq<Verdict>, CampaignError>
    requires g <= m
  {
    if g > 0 then
      match Verdicts(judge, m, t, g - 1)
      case Err(e) => Err(e)
      case Ok(before) =>
        match judge(t, g - 1)
        case Err(e) => Err(e)
        case Ok(verdict) => Ok(before + [verdict])
    else if t > 0 then Verdicts(judge, m, t - 1, m)
    else Ok([])
  }

  function Agreements(verdicts: seq<Verdict>): seq<LabeledEntry> {
    if |verdicts| == 0 then []
    else
      var last := verdicts[|verdicts| - 1];
      Agreements(verdicts[..|verdicts| - 1]) + if last.Agreed? then [last.entry] else []
  }

  function Splits(verdicts: seq<Verdict>): seq<Disagreement> {
    if |verdicts| == 0 then []
    else
      var last := verdicts[|verdicts| - 1];
      Splits(verdicts[..|verdicts| - 1]) + if last.Split? then [last.disagreement] else []
  }

  function RunOf(verdicts: seq<Verdict>, tasks: nat): Run { Run(Agreements(verdicts), Splits(verdicts), |verdicts|, tasks) }

  /** The run at that point: its rows sorted out, or the failure that stopped it. */
  function RunAt(judge: Judging, m: nat, t: nat, g: nat): Result<Run, CampaignError>
    requires g <= m
  {
    match Verdicts(judge, m, t, g)
    case Err(e) => Err(e)
    case Ok(verdicts) => Ok(RunOf(verdicts, t))
  }

  function Outcome(c: Campaign): Result<Run, CampaignError> {
    if Rejection(c).Some? then Err(Rejection(c).value) else RunAt(Judgements(c), |c.generators|, |c.Selected()|, 0)
  }

  lemma SortOutSnoc(verdicts: seq<Verdict>, v: Verdict)
    ensures Agreements(verdicts + [v]) == Agreements(verdicts) + if v.Agreed? then [v.entry] else []
    ensures Splits(verdicts + [v]) == Splits(verdicts) + if v.Split? then [v.disagreement] else []
  {
    assert (verdicts + [v])[..|verdicts|] == verdicts;
  }

  /** Once a call fails nothing later is judged. */
  lemma {:induction false} FailureStands(judge: Judging, m: nat, t: nat, g: nat, n: nat)
    requires g <= m && (t < n || (t == n && g == 0))
    requires Verdicts(judge, m, t, g).Err?
    ensures Verdicts(judge, m, n, 0) == Verdicts(judge, m, t, g)
    decreases n - t, m - g
  {
    if t < n {
      if g < m {
        FailureStands(judge, m, t, g + 1, n);
      } else {
        FailureStands(judge, m, t + 1, 0, n);
      }
    }
  }

  function Recorded(run: Run, v: Verdict): Run {
    match v
    case Agreed(entry) => run.(labeled := run.labeled + [entry], generations := run.generations + 1)
    case Split(split) => run.(disagreements := run.disagreements + [split], generations := run.generations + 1)
  }

  lemma RunOfSnoc(verdicts: seq<Verdict>, v: Verdict, t: nat)
    ensures RunOf(verdicts + [v], t) == Recorded(RunOf(verdicts, t), v)
  {
    SortOutSnoc(verdicts, v);
  }

  lemma RunGrows(judge: Judging, m: nat, t: nat, g: nat, before: Run, r: Result<Verdict, CampaignError>)
    requires g < m && RunAt(judge, m, t, g) == Ok(before) && r == judge(t, g)
    ensures RunAt(judge, m, t, g + 1) == if r.Err? then Err(r.error) else Ok(Recorded(before, r.value))
  {
    if r.Ok? {
      RunOfSnoc(Verdicts(judge, m, t, g).value, r.value, t);
    }
  }

  /** The inner loop's body: judge one generation and push its row or its disagreement. */
  method RecordGeneration(c: Campaign, t: nat, g: nat, before: Run) returns (r: Result<Run, CampaignError>)
    requires InRange(c, t, g) && c.options.MaxGraders() >= MIN_GRADERS
    requires RunAt(Judgements(c), |c.generators|, t, g) == Ok(before)
    ensures r == RunAt(Judgements(c), |c.generators|, t, g + 1)
  {
    var verdict := JudgeGeneration(c, t, g);
    RunGrows(Judgements(c), |c.generators|, t, g, before, verdict);
    if verdict.Err? {
      return Err(verdict.error);
    }
    match verdict.value
    case Agreed(entry) => r := Ok(Run(before.labeled + [entry], before.disagreements, before.generations + 1, before.tasksProcessed));
    case Split(split) => r := Ok(Run(before.labeled, before.disagreements + [split], before.generations + 1, before.tasksProcessed));
  }

  /** One task's generators; the run so far is extended or abandoned. */
  method JudgeTask(c: Campaign, t: nat, before: Run) returns (r: Result<Run, CampaignError>)
    requires t < |c.tasks| && c.options.MaxGraders() >= MIN_GRADERS
    requires RunAt(Judgements(c), |c.generators|, t, 0) == Ok(before)
    ensures r == RunAt(Judgements(c), |c.generators|, t + 1, 0)
  {
    var run := before;
    var g := 0;
    while g < |c.generators|
      invariant 0 <= g <= |c.generators|
      invariant RunAt(Judgements(c), |c.generators|, t, g) == Ok(run)
    {
      var next := RecordGeneration(c, t, g, run);
      if next.Err? {
        FailureStands(Judgements(c), |c.generators|, t, g + 1, t + 1);
        return next;
      }
      run := next.value;
      g := g + 1;
    }
    return Ok(run.(tasksProcessed := t + 1));
  }

  /** The outer loop over the selected tasks. */
  method JudgeTasks(c: Campaign, n: nat) returns (r: Result<Run, CampaignError>)
    requires n <= |c.tasks| && c.options.MaxGraders() >= MIN_GRADERS
    ensures r == RunAt(Judgements(c), |c.generators|, n, 0)
  {
    var run := Run([], [], 0, 0);
    var t := 0;
    while t < n
      invariant 0 <= t <= n
      invariant RunAt(Judgements(c), |c.generators|, t, 0) == Ok(run)
    {
      var next := JudgeTask(c, t, run);
      if next.Err? {
        FailureStands(Judgements(c), |c.generators|, t + 1, 0, n);
        return next;
      }
      run := next.value;
      t := t + 1;
    }
    return Ok(run);
  }

  method RunAdversarialLabelingCampaign(c: Campaign) returns (r: Result<Run, CampaignError>)
    ensures r == Outcome(c)
  {
    var rejection := CheckCampaign(c);
    if rejection.Some? {
      return Err(rejection.value);
    }
    r := JudgeTasks(c, |c.Selected()|);
  }
}
