/** The adjudication panel: which models sit on it and how their scores become a decision. */
module Panel {
  import opened Wrappers
  import opened Labelling

  const MIN_PANEL_SIZE := 3
  const MIN_MAJORITY := 2

  datatype ModelRef = ModelRef(id: string, providerModel: string)

  // ---------------------------------------------------------------------------
  // Selection
  // ---------------------------------------------------------------------------

  predicate Admits(panel: seq<ModelRef>, ref: ModelRef, generatorModel: string) {
    ref.providerModel != generatorModel && forall p | p in panel :: p.providerModel != ref.providerModel && p.id != ref.id
  }

  /** First come, first seated, up to the panel size. */
  function Seated(refs: seq<ModelRef>, generatorModel: string, size: nat): (panel: seq<ModelRef>)
    ensures |panel| <= size
  {
    if |refs| == 0 then []
    else
      var panel, ref := Seated(refs[..|refs| - 1], generatorModel, size), refs[|refs| - 1];
      if |panel| < size && Admits(panel, ref, generatorModel) then panel + [ref] else panel
  }

  lemma SeatedSnoc(refs: seq<ModelRef>, ref: ModelRef, generatorModel: string, size: nat)
    ensures var panel := Seated(refs, generatorModel, size);
      Seated(refs + [ref], generatorModel, size)
      == if |panel| < size && Admits(panel, ref, generatorModel) then panel + [ref] else panel
  {
    assert (refs + [ref])[..|refs|] == refs;
  }

  /** The models and ids in use are those of the panel. */
  ghost predicate Tracks(panel: seq<ModelRef>, models: set<string>, ids: set<string>) {
    && (forall m :: m in models <==> exists p | p in panel :: p.providerModel == m)
    && forall id :: id in ids <==> exists p | p in panel :: p.id == id
  }

  predicate Usable(ref: ModelRef, generatorModel: string, models: set<string>, ids: set<string>) {
    ref.providerModel != generatorModel && ref.providerModel !in models && ref.id !in ids
  }

  lemma TryOne(before: seq<ModelRef>, ref: ModelRef, generatorModel: string, size: nat,
               panel: seq<ModelRef>, models: set<string>, ids: set<string>)
    requires panel == Seated(before, generatorModel, size) && Tracks(panel, models, ids)
    ensures |panel| < size && Usable(ref, generatorModel, models, ids) ==>
      && Seated(before + [ref], generatorModel, size) == panel + [ref]
      && Tracks(panel + [ref], models + {ref.providerModel}, ids + {ref.id})
    ensures !(|panel| < size && Usable(ref, generatorModel, models, ids)) ==> Seated(before + [ref], generatorModel, size) == panel
  {
    SeatedSnoc(before, ref, generatorModel, size);
  }

  /** Tries each reference in turn against the models and ids already used. */
  method TryAll(ghost before: seq<ModelRef>, refs: seq<ModelRef>, generatorModel: string, size: nat,
                panel: seq<ModelRef>, models: set<string>, ids: set<string>)
    returns (panel': seq<ModelRef>, models': set<string>, ids': set<string>)
    requires panel == Seated(before, generatorModel, size) && Tracks(panel, models, ids)
    ensures panel' == Seated(before + refs, generatorModel, size) && Tracks(panel', models', ids')
  {
    panel', models', ids' := panel, models, ids;
    var i := 0;
    assert before + refs[..0] == before;
    while i < |refs|
      invariant 0 <= i <= |refs|
      invariant panel' == Seated(before + refs[..i], generatorModel, size)
      invariant Tracks(panel', models', ids')
    {
      var ref := refs[i];
      assert before + refs[..i + 1] == before + refs[..i] + [ref];
      TryOne(before + refs[..i], ref, generatorModel, size, panel', models', ids');
      if |panel'| < size && Usable(ref, generatorModel, models', ids') {
        panel', models', ids' := panel' + [ref], models' + {ref.providerModel}, ids' + {ref.id};
      }
      i := i + 1;
    }
    assert refs[..i] == refs;
  }

  function SelectedPanel(generatorModel: string, pool: seq<ModelRef>, fill: seq<ModelRef>, size: nat): Result<seq<ModelRef>, nat> {
    var panel := Seated(pool + fill, generatorModel, size);
    if |panel| < size then Err(|panel|) else Ok(panel)
  }

  method SelectPanelForGenerator(generatorModel: string, pool: seq<ModelRef>, fill: seq<ModelRef>, size: nat)
    returns (r: Result<seq<ModelRef>, nat>)
    ensures r == SelectedPanel(generatorModel, pool, fill, size)
  {
    var panel, models, ids := TryAll([], pool, generatorModel, size, [], {}, {});
    assert [] + pool == pool;
    panel, models, ids := TryAll(pool, fill, generatorModel, size, panel, models, ids);
    if |panel| < size {
      return Err(|panel|);
    }
    assert panel[..size] == panel;
    return Ok(panel[..size]);
  }

  /** Listed members with pairwise different models and ids, none of them the generator's model. */
  ghost predicate Independent(panel: seq<ModelRef>, refs: seq<ModelRef>, generatorModel: string) {
    && (forall p | p in panel :: p in refs && p.providerModel != generatorModel)
    && forall i, j | 0 <= i < j < |panel| :: panel[i].providerModel != panel[j].providerModel && panel[i].id != panel[j].id
  }

  lemma {:induction false} SeatedIsIndependent(refs: seq<ModelRef>, generatorModel: string, size: nat)
    ensures Independent(Seated(refs, generatorModel, size), refs, generatorModel)
  {
    if |refs| > 0 {
      var init, ref := refs[..|refs| - 1], refs[|refs| - 1];
      SeatedIsIndependent(init, generatorModel, size);
      assert refs == init + [ref];
      SeatedSnoc(init, ref, generatorModel, size);
    } else {
      assert Seated(refs, generatorModel, size) == [];
    }
  }

  /** A panel, once selected, has exactly the asked size and is independent of the generator. */
  lemma PanelIsIndependent(generatorModel: string, pool: seq<ModelRef>, fill: seq<ModelRef>, size: nat)
    requires SelectedPanel(generatorModel, pool, fill, size).Ok?
    ensures var panel := SelectedPanel(generatorModel, pool, fill, size).value;
      |panel| == size && Independent(panel, pool + fill, generatorModel)
  {
    SeatedIsIndependent(pool + fill, generatorModel, size);
  }

  ghost function PermittedModels(refs: seq<ModelRef>, generatorModel: string): set<string> {
    set r | r in refs && r.providerModel != generatorModel :: r.providerModel
  }

  ghost function ModelsOf(panel: seq<ModelRef>): set<string> { set p | p in panel :: p.providerModel }

  lemma {:induction false} DistinctModelsCount(panel: seq<ModelRef>)
    requires forall i, j | 0 <= i < j < |panel| :: panel[i].providerModel != panel[j].providerModel
    ensures |ModelsOf(panel)| == |panel|
  {
    if |panel| > 0 {
      var init, p := panel[..|panel| - 1], panel[|panel| - 1];
      DistinctModelsCount(init);
      assert panel == init + [p];
      assert ModelsOf(panel) == ModelsOf(init) + {p.providerModel};
      assert p.providerModel !in ModelsOf(init);
    }
  }

  /** References to different models never share an id. */
  predicate IdsFollowModels(refs: seq<ModelRef>) {
    forall a, b | a in refs && b in refs && a.id == b.id :: a.providerModel == b.providerModel
  }

  lemma {:induction false} ShortPanelSeatsEveryModel(refs: seq<ModelRef>, generatorModel: string, size: nat)
    requires IdsFollowModels(refs) && |Seated(refs, generatorModel, size)| < size
    ensures PermittedModels(refs, generatorModel) <= ModelsOf(Seated(refs, generatorModel, size))
  {
    if |refs| > 0 {
      var init, ref := refs[..|refs| - 1], refs[|refs| - 1];
      assert refs == init + [ref];
      ShortPanelSeatsEveryModel(init, generatorModel, size);
      SeatedIsIndependent(init, generatorModel, size);
      var panel := Seated(init, generatorModel, size);
      if !Admits(panel, ref, generatorModel) && ref.providerModel != generatorModel {
        var p :| p in panel && (p.providerModel == ref.providerModel || p.id == ref.id);
        assert p in refs && ref in refs;
        assert p.providerModel == ref.providerModel;
      }
      forall m | m in PermittedModels(refs, generatorModel) ensures m in ModelsOf(Seated(refs, generatorModel, size)) {
        var r :| r in refs && r.providerModel != generatorModel && r.providerModel == m;
        if r in init {
          assert m in PermittedModels(init, generatorModel);
        }
      }
    }
  }

  /** A panel always needs enough permitted models; when ids follow models it exists exactly when there are enough. */
  lemma PanelExistsIff(generatorModel: string, pool: seq<ModelRef>, fill: seq<ModelRef>, size: nat)
    ensures SelectedPanel(generatorModel, pool, fill, size).Ok? ==> |PermittedModels(pool + fill, generatorModel)| >= size
    ensures IdsFollowModels(pool + fill) ==>
      (SelectedPanel(generatorModel, pool, fill, size).Ok? <==> |PermittedModels(pool + fill, generatorModel)| >= size)
  {
    var refs := pool + fill;
    var panel := Seated(refs, generatorModel, size);
    SeatedIsIndependent(refs, generatorModel, size);
    DistinctModelsCount(panel);
    SubsetSize(ModelsOf(panel), PermittedModels(refs, generatorModel));
    if IdsFollowModels(refs) && |panel| < size {
      ShortPanelSeatsEveryModel(refs, generatorModel, size);
      SubsetSize(PermittedModels(refs, generatorModel), ModelsOf(panel));
    }
  }

  ghost function IdsOf(panel: seq<ModelRef>): set<string> { set p | p in panel :: p.id }

  lemma {:induction false} IdsCount(panel: seq<ModelRef>)
    ensures |IdsOf(panel)| <= |panel|
  {
    if |panel| > 0 {
      var init, p := panel[..|panel| - 1], panel[|panel| - 1];
      IdsCount(init);
      assert panel == init + [p];
      assert IdsOf(panel) == IdsOf(init) + {p.id};
    }
  }

  ghost predicate Blocked(panel: seq<ModelRef>, ref: ModelRef) {
    ref.providerModel in ModelsOf(panel) || ref.id in IdsOf(panel)
  }

  /** A short panel has taken the model or the id of every permitted reference. */
  lemma {:induction false} ShortPanelBlocksAll(refs: seq<ModelRef>, generatorModel: string, size: nat)
    requires |Seated(refs, generatorModel, size)| < size
    ensures forall r | r in refs && r.providerModel != generatorModel :: Blocked(Seated(refs, generatorModel, size), r)
  {
    if |refs| > 0 {
      var init, ref := refs[..|refs| - 1], refs[|refs| - 1];
      assert refs == init + [ref];
      ShortPanelBlocksAll(init, generatorModel, size);
      var panel := Seated(init, generatorModel, size);
      assert forall p | p in panel :: p in Seated(refs, generatorModel, size);
      assert Admits(panel, ref, generatorModel) ==> ref in Seated(refs, generatorModel, size);
    }
  }

  lemma MeetGrows(a: set<string>, x: string, b: set<string>)
    requires x !in a
    ensures |(a + {x}) * b| == |a * b| + if x in b then 1 else 0
  {
    assert (a + {x}) * b == if x in b then a * b + {x} else a * b;
  }

  /** Pairwise different members that each use up a taken model or a taken id number at most those together. */
  lemma {:induction false} BlockedCount(panel: seq<ModelRef>, models: set<string>, ids: set<string>)
    requires forall i, j | 0 <= i < j < |panel| :: panel[i].providerModel != panel[j].providerModel && panel[i].id != panel[j].id
    requires forall p | p in panel :: p.providerModel in models || p.id in ids
    ensures |panel| <= |ModelsOf(panel) * models| + |IdsOf(panel) * ids|
  {
    if |panel| > 0 {
      var init, p := panel[..|panel| - 1], panel[|panel| - 1];
      assert panel == init + [p];
      BlockedCount(init, models, ids);
      assert p in panel;
      BlockedOneMore(init, p, models, ids);
    }
  }

  lemma BlockedOneMore(init: seq<ModelRef>, p: ModelRef, models: set<string>, ids: set<string>)
    requires forall i | 0 <= i < |init| :: init[i].providerModel != p.providerModel && init[i].id != p.id
    requires p.providerModel in models || p.id in ids
    ensures |ModelsOf(init + [p]) * models| + |IdsOf(init + [p]) * ids| >= |ModelsOf(init) * models| + |IdsOf(init) * ids| + 1
  {
    assert ModelsOf(init + [p]) == ModelsOf(init) + {p.providerModel};
    assert IdsOf(init + [p]) == IdsOf(init) + {p.id};
    MeetGrows(ModelsOf(init), p.providerModel, models);
    MeetGrows(IdsOf(init), p.id, ids);
  }

  /** Shared ids or not, a short greedy panel is at least half of any independent one, so twice the size less one always does. */
  lemma ShortPanelIsHalf(generatorModel: string, pool: seq<ModelRef>, fill: seq<ModelRef>, size: nat, other: seq<ModelRef>)
    requires Independent(other, pool + fill, generatorModel)
    ensures SelectedPanel(generatorModel, pool, fill, size).Err? ==> |other| <= 2 * SelectedPanel(generatorModel, pool, fill, size).error
    ensures |other| + 1 >= 2 * size ==> SelectedPanel(generatorModel, pool, fill, size).Ok?
  {
    var panel := Seated(pool + fill, generatorModel, size);
    if |panel| < size {
      ShortPanelBlocksAll(pool + fill, generatorModel, size);
      SeatedIsIndependent(pool + fill, generatorModel, size);
      var models, ids := ModelsOf(panel), IdsOf(panel);
      BlockedCount(other, models, ids);
      DistinctModelsCount(panel);
      IdsCount(panel);
      SubsetSize(ModelsOf(other) * models, models);
      SubsetSize(IdsOf(other) * ids, ids);
    }
  }

  lemma SharedIdBlocks(a: ModelRef, b: ModelRef, c: ModelRef, d: ModelRef, generatorModel: string)
    requires a.id == b.id && a.providerModel == c.providerModel && a.id != d.id && a.providerModel != d.providerModel
    requires a.providerModel != generatorModel && d.providerModel != generatorModel
    ensures Seated([a, b, c, d], generatorModel, MIN_PANEL_SIZE) == [a, d]
  {
    assert [] + [a] == [a] && [a] + [b] == [a, b] && [a, b] + [c] == [a, b, c] && [a, b, c] + [d] == [a, b, c, d];
    SeatedSnoc([], a, generatorModel, MIN_PANEL_SIZE);
    Refused([a], a, b, generatorModel);
    Refused([a, b], a, c, generatorModel);
    SeatedSnoc([a, b, c], d, generatorModel, MIN_PANEL_SIZE);
  }

  lemma Refused(refs: seq<ModelRef>, a: ModelRef, ref: ModelRef, generatorModel: string)
    requires Seated(refs, generatorModel, MIN_PANEL_SIZE) == [a] && (ref.id == a.id || ref.providerModel == a.providerModel)
    ensures Seated(refs + [ref], generatorModel, MIN_PANEL_SIZE) == [a]
  {
    assert a in [a];
    SeatedSnoc(refs, ref, generatorModel, MIN_PANEL_SIZE);
  }

  /** With a shared id the greedy pass can miss a panel that exists: here b, c and d would do. */
  lemma GreedyCanMissAPanel()
    ensures var a, b := ModelRef("x", "m1"), ModelRef("x", "m2");
      var c, d := ModelRef("y", "m1"), ModelRef("z", "m3");
      && Independent([b, c, d], [a, b, c, d], "g")
      && SelectedPanel("g", [a, b, c], [d], MIN_PANEL_SIZE) == Err(2)
  {
    var a, b, c, d := ModelRef("x", "m1"), ModelRef("x", "m2"), ModelRef("y", "m1"), ModelRef("z", "m3");
    assert "m1"[1] != "m2"[1] && "m1"[1] != "m3"[1] && "m2"[1] != "m3"[1] && |"g"| != |"m1"|;
    assert "x"[0] != "y"[0] && "x"[0] != "z"[0] && "y"[0] != "z"[0];
    assert [a, b, c] + [d] == [a, b, c, d];
    SharedIdBlocks(a, b, c, d, "g");
  }

  // ---------------------------------------------------------------------------
  // Majority
  // ---------------------------------------------------------------------------

  datatype Decision = Decision(success: bool, judgeScore: real)

  function PassVotes(scores: seq<GraderScore>, passScore: real): (n: nat)
    ensures n <= |scores|
  {
    if |scores| == 0 then 0
    else PassVotes(scores[..|scores| - 1], passScore) + if scores[|scores| - 1].score as real >= passScore then 1 else 0
  }

  function Majority(scores: seq<GraderScore>, passScore: real): Option<Decision> {
    var passes := PassVotes(scores, passScore);
    if |scores| < MIN_MAJORITY then None
    else if passes >= MIN_MAJORITY then Some(Decision(true, MeanScore(scores)))
    else if |scores| - passes >= MIN_MAJORITY then Some(Decision(false, MeanScore(scores)))
    else None
  }

  method MajorityDecision(scores: seq<GraderScore>, passScore: real) returns (d: Option<Decision>)
    ensures d == Majority(scores, passScore)
  {
    if |scores| < MIN_MAJORITY {
      return None;
    }
    var successVotes, failVotes, sum := 0, 0, 0;
    var i := 0;
    while i < |scores|
      invariant 0 <= i <= |scores|
      invariant successVotes == PassVotes(scores[..i], passScore) && failVotes == i - successVotes
      invariant sum == ScoreSum(scores[..i])
    {
      assert scores[..i + 1][..i] == scores[..i];
      sum := sum + scores[i].score;
      if scores[i].score as real >= passScore {
        successVotes := successVotes + 1;
      } else {
        failVotes := failVotes + 1;
      }
      i := i + 1;
    }
    assert scores[..i] == scores;
    if successVotes >= MIN_MAJORITY {
      return Some(Decision(true, Round1(sum as real / |scores| as real)));
    }
    if failVotes >= MIN_MAJORITY {
      return Some(Decision(false, Round1(sum as real / |scores| as real)));
    }
    return None;
  }

  /** More than half of the votes cast are on the decision's side. */
  predicate StrictMajority(scores: seq<GraderScore>, passScore: real, success: bool) {
    var passes := PassVotes(scores, passScore);
    2 * (if success then passes else |scores| - passes) > |scores|
  }

  /** Up to three scores a decision is exactly a strict majority of at least two votes. */
  lemma SmallPanelDecidesByMajority(scores: seq<GraderScore>, passScore: real)
    requires |scores| <= MIN_PANEL_SIZE
    ensures Majority(scores, passScore).Some? ==> StrictMajority(scores, passScore, Majority(scores, passScore).value.success)
    ensures Majority(scores, passScore).None? <==> |scores| < 2 || (|scores| == 2 && PassVotes(scores, passScore) == 1)
  {
  }

  function Scores(passing: nat, failing: nat): (s: seq<GraderScore>)
    ensures |s| == passing + failing
  {
    seq(passing, i => GraderScore("p", SCORE_MAX)) + seq(failing, i => GraderScore("f", SCORE_MIN))
  }

  lemma {:induction false} ScoresVote(passing: nat, failing: nat)
    ensures PassVotes(Scores(passing, failing), 1.0) == passing
  {
    var s := Scores(passing, failing);
    if failing > 0 {
      ScoresVote(passing, failing - 1);
      assert s[..|s| - 1] == Scores(passing, failing - 1);
    } else if passing > 0 {
      ScoresVote(passing - 1, 0);
      assert s[..|s| - 1] == Scores(passing - 1, 0);
    }
  }

  /** Two votes are a strict majority of every list of n scores exactly when n is at most three. */
  lemma MajorityIsStrictUpToThree(n: nat)
    ensures n <= 3 <==> forall scores, passScore ::
      |scores| == n && Majority(scores, passScore).Some? ==> StrictMajority(scores, passScore, Majority(scores, passScore).value.success)
  {
    if n >= 4 {
      var scores := Scores(2, n - 2);
      ScoresVote(2, n - 2);
      assert Majority(scores, 1.0).Some? && !StrictMajority(scores, 1.0, Majority(scores, 1.0).value.success);
    }
  }
}
