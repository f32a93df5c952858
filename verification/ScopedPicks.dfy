/** Choosing two generators and two graders from the enabled models. */
module ScopedPicks {
  import opened Wrappers
  import opened Sorting
  import opened Grouping
  import opened Labelling
  import opened LabelCampaign
  import opened Panel

  const FORBIDDEN_GRADER_MODEL := "cursor/auto"
  const MIN_SCOPED_ELIGIBLE_MODELS := 4

  predicate Contains(s: string, sub: string) { sub <= s || (|s| > 0 && Contains(s[1..], sub)) }

  predicate StartsWith(s: string, prefix: string) { prefix <= s }

  function Lower(c: char): char { if 'A' <= c <= 'Z' then (c as int + 32) as char else c }

  function LowerAll(s: string): (r: string)
    ensures |r| == |s|
  {
    seq(|s|, i requires 0 <= i < |s| => Lower(s[i]))
  }

  predicate IsExcludedFromCampaign(model: string) {
    model == "smart-router/auto" || StartsWith(model, "smart-router/") || Contains(model, "customtools")
  }

  predicate IsForbiddenGrader(model: string) { model == FORBIDDEN_GRADER_MODEL }

  predicate IsPreferredGrader(model: string) {
    var m := LowerAll(model);
    StartsWith(m, "google/") && (Contains(m, "flash") || Contains(m, "lite"))
  }

  predicate Permitted(model: string) { !IsExcludedFromCampaign(model) && !IsForbiddenGrader(model) }

  /** A provider and a model, both non-empty, around the first slash. */
  predicate WellFormed(model: string) {
    exists i | 0 < i < |model| - 1 :: model[i] == '/' && forall j | 0 <= j < i :: model[j] != '/'
  }

  datatype PickError = TooFewModels(eligible: nat) | MalformedModel(model: string)

  datatype Picks = Picks(generators: seq<ModelRef>, graders: seq<ModelRef>)

  /** The enabled models once each, minus those barred, in comparison order. */
  function EligibleModels(enabled: seq<string>, leq: (string, string) -> bool): seq<string> {
    Sort(Filter(Filter(KeyOrder(enabled, (m: string) => m), (m: string) => !IsExcludedFromCampaign(m)), (m: string) => !IsForbiddenGrader(m)), leq)
  }

  // ---------------------------------------------------------------------------
  // The filling loops
  // ---------------------------------------------------------------------------

  /** Adds models not there yet until the list is full. */
  function FillNew(start: seq<string>, source: seq<string>, limit: nat): seq<string> {
    if |source| == 0 then start
    else
      var filled, m := FillNew(start, source[..|source| - 1], limit), source[|source| - 1];
      if |filled| < limit && m !in filled then filled + [m] else filled
  }

  /** Takes models outside another list until full. */
  function FillAvoiding(source: seq<string>, avoid: seq<string>, limit: nat): seq<string> {
    if |source| == 0 then []
    else
      var filled, m := FillAvoiding(source[..|source| - 1], avoid, limit), source[|source| - 1];
      if |filled| < limit && m !in avoid then filled + [m] else filled
  }

  lemma {:induction false} FillNewFull(start: seq<string>, source: seq<string>, n: nat, limit: nat)
    requires n <= |source| && |FillNew(start, source[..n], limit)| >= limit
    ensures FillNew(start, source, limit) == FillNew(start, source[..n], limit)
    decreases |source|
  {
    if n < |source| {
      assert source[..|source| - 1][..n] == source[..n];
      FillNewFull(start, source[..|source| - 1], n, limit);
    } else {
      assert source[..n] == source;
    }
  }

  lemma {:induction false} FillAvoidingFull(source: seq<string>, avoid: seq<string>, n: nat, limit: nat)
    requires n <= |source| && |FillAvoiding(source[..n], avoid, limit)| >= limit
    ensures FillAvoiding(source, avoid, limit) == FillAvoiding(source[..n], avoid, limit)
    decreases |source|
  {
    if n < |source| {
      assert source[..|source| - 1][..n] == source[..n];
      FillAvoidingFull(source[..|source| - 1], avoid, n, limit);
    } else {
      assert source[..n] == source;
    }
  }

  method TakeFirst(source: seq<string>, limit: nat) returns (taken: seq<string>)
    ensures taken == FirstOf(source, limit)
  {
    taken := [];
    var i := 0;
    while i < |source| && |taken| < limit
      invariant 0 <= i <= |source| && taken == source[..i] && i <= limit
    {
      taken := taken + [source[i]];
      i := i + 1;
    }
  }

  method TopUp(start: seq<string>, source: seq<string>, limit: nat) returns (filled: seq<string>)
    ensures filled == FillNew(start, source, limit)
  {
    filled := start;
    var i := 0;
    while i < |source|
      invariant 0 <= i <= |source| && filled == FillNew(start, source[..i], limit)
    {
      if |filled| >= limit {
        FillNewFull(start, source, i, limit);
        return;
      }
      assert source[..i + 1][..i] == source[..i];
      if source[i] !in filled {
        filled := filled + [source[i]];
      }
      i := i + 1;
    }
    assert source[..i] == source;
  }

  method TakeAvoiding(source: seq<string>, avoid: seq<string>, limit: nat) returns (filled: seq<string>)
    ensures filled == FillAvoiding(source, avoid, limit)
  {
    filled := [];
    var i := 0;
    while i < |source|
      invariant 0 <= i <= |source| && filled == FillAvoiding(source[..i], avoid, limit)
    {
      if |filled| >= limit {
        FillAvoidingFull(source, avoid, i, limit);
        return;
      }
      assert source[..i + 1][..i] == source[..i];
      if source[i] !in avoid {
        filled := filled + [source[i]];
      }
      i := i + 1;
    }
    assert source[..i] == source;
  }

  function GraderModels(eligible: seq<string>): seq<string> {
    FillNew(FirstOf(Filter(eligible, IsPreferredGrader), MIN_GRADERS), eligible, MIN_GRADERS)
  }

  /** The generators before the fallback loop. */
  function FirstGenerators(eligible: seq<string>): seq<string> { FillAvoiding(eligible, GraderModels(eligible), MIN_GENERATORS) }

  function GeneratorModels(eligible: seq<string>): seq<string> { FillNew(FirstGenerators(eligible), eligible, MIN_GENERATORS) }

  /** The first of the four picks that does not split into provider and model. */
  function Malformed(models: seq<string>): Option<string> {
    if |models| == 0 then None
    else if !WellFormed(models[0]) then Some(models[0])
    else Malformed(models[1..])
  }

  // ---------------------------------------------------------------------------
  // Four distinct models
  // ---------------------------------------------------------------------------

  ghost function Elements(s: seq<string>): set<string> { set m | m in s }

  lemma {:induction false} DistinctSize(s: seq<string>)
    ensures |Elements(s)| <= |s|
    ensures Distinct(s) ==> |Elements(s)| == |s|
  {
    if |s| > 0 {
      var init, m := s[..|s| - 1], s[|s| - 1];
      DistinctSize(init);
      assert s == init + [m];
      assert Elements(s) == Elements(init) + {m};
    }
  }

  lemma {:induction false} FillNewFacts(start: seq<string>, source: seq<string>, limit: nat)
    requires Distinct(start) && |start| <= limit
    ensures var filled := FillNew(start, source, limit);
      && Distinct(filled) && start <= filled && |filled| <= limit
      && (forall m | m in filled :: m in start || m in source)
      && (|filled| < limit ==> forall m | m in source :: m in filled)
  {
    if |source| > 0 {
      FillNewFacts(start, source[..|source| - 1], limit);
      assert source == source[..|source| - 1] + [source[|source| - 1]];
    }
  }

  /** Enough distinct candidates always fill the list. */
  lemma FillNewFills(start: seq<string>, source: seq<string>, limit: nat)
    requires Distinct(start) && |start| <= limit && Distinct(source) && |source| >= limit
    ensures |FillNew(start, source, limit)| == limit
  {
    FillNewFacts(start, source, limit);
    var filled := FillNew(start, source, limit);
    if |filled| < limit {
      SubsetSize(Elements(source), Elements(filled));
      DistinctSize(source);
      DistinctSize(filled);
    }
  }

  lemma {:induction false} FillAvoidingFacts(source: seq<string>, avoid: seq<string>, limit: nat)
    requires Distinct(source)
    ensures var filled := FillAvoiding(source, avoid, limit);
      && Distinct(filled) && |filled| <= limit
      && (forall m | m in filled :: m in source && m !in avoid)
      && (|filled| < limit ==> forall m | m in source :: m in filled || m in avoid)
  {
    if |source| > 0 {
      var init, m := source[..|source| - 1], source[|source| - 1];
      assert source == init + [m];
      assert m !in init;
      FillAvoidingFacts(init, avoid, limit);
    }
  }

  lemma FillAvoidingFills(source: seq<string>, avoid: seq<string>, limit: nat)
    requires Distinct(source) && |source| >= |avoid| + limit
    ensures |FillAvoiding(source, avoid, limit)| == limit
  {
    FillAvoidingFacts(source, avoid, limit);
    var filled := FillAvoiding(source, avoid, limit);
    if |filled| < limit {
      SubsetSize(Elements(source), Elements(filled) + Elements(avoid));
      DistinctSize(source);
      DistinctSize(filled);
      DistinctSize(avoid);
    }
  }

  lemma {:induction false} FillNewIdle(start: seq<string>, source: seq<string>, limit: nat)
    requires |start| >= limit
    ensures FillNew(start, source, limit) == start
  {
    if |source| > 0 {
      FillNewIdle(start, source[..|source| - 1], limit);
    }
  }

  lemma {:induction false} FilterDistinct(s: seq<string>, p: string -> bool)
    requires Distinct(s)
    ensures Distinct(Filter(s, p))
  {
    if |s| > 0 {
      var init, m := s[..|s| - 1], s[|s| - 1];
      FilterDistinct(init, p);
      FilterMembers(init, p);
      assert m !in init;
    }
  }

  lemma {:induction false} DistinctByCount(s: seq<string>)
    ensures Distinct(s) <==> forall m :: multiset(s)[m] <= 1
  {
    if |s| > 0 {
      var init, m := s[..|s| - 1], s[|s| - 1];
      DistinctByCount(init);
      assert s == init + [m];
      assert m in init <==> multiset(init)[m] > 0;
      if Distinct(s) {
        assert Distinct(init) && m !in init;
        assert forall x :: multiset(s)[x] == multiset(init)[x] + multiset{m}[x];
      } else if m !in init {
        assert !Distinct(init);
        var x :| multiset(init)[x] > 1;
        assert multiset(s)[x] > 1;
      } else {
        assert multiset(s)[m] > 1;
      }
    }
  }

  lemma SortDistinct(s: seq<string>, leq: (string, string) -> bool)
    requires Distinct(s)
    ensures Distinct(Sort(s, leq)) && forall m :: m in Sort(s, leq) <==> m in s
  {
    DistinctByCount(s);
    DistinctByCount(Sort(s, leq));
    assert forall m :: m in s <==> m in multiset(s);
    assert forall m :: m in Sort(s, leq) <==> m in multiset(Sort(s, leq));
  }

  ghost function PermittedOf(enabled: seq<string>): set<string> { set m | m in enabled && Permitted(m) }

  lemma {:induction false} EachOnce(enabled: seq<string>)
    ensures forall m :: m in KeyOrder(enabled, (x: string) => x) <==> m in enabled
  {
    if |enabled| > 0 {
      EachOnce(enabled[..|enabled| - 1]);
      assert enabled == enabled[..|enabled| - 1] + [enabled[|enabled| - 1]];
    }
  }

  /** The eligible list holds every permitted enabled model exactly once, in whatever order models compare. */
  lemma EligibleFacts(enabled: seq<string>, leq: (string, string) -> bool)
    ensures var eligible := EligibleModels(enabled, leq);
      Distinct(eligible) && Elements(eligible) == PermittedOf(enabled) && |eligible| == |PermittedOf(enabled)|
  {
    var once := KeyOrder(enabled, (m: string) => m);
    EachOnce(enabled);
    KeyOrderFacts(enabled, (m: string) => m);
    var kept := Filter(once, (m: string) => !IsExcludedFromCampaign(m));
    FilterDistinct(once, (m: string) => !IsExcludedFromCampaign(m));
    FilterMembers(once, (m: string) => !IsExcludedFromCampaign(m));
    FilterDistinct(kept, (m: string) => !IsForbiddenGrader(m));
    FilterMembers(kept, (m: string) => !IsForbiddenGrader(m));
    SortDistinct(Filter(kept, (m: string) => !IsForbiddenGrader(m)), leq);
    var eligible := EligibleModels(enabled, leq);
    assert Elements(eligible) == PermittedOf(enabled);
    DistinctSize(eligible);
  }

  function PickedModels(eligible: seq<string>): seq<string> { GeneratorModels(eligible) + GraderModels(eligible) }

  /** Four eligible models give two generators and two graders on four distinct models; the fallback loop adds nothing. */
  lemma PicksAreFourModels(eligible: seq<string>)
    requires Distinct(eligible) && |eligible| >= MIN_SCOPED_ELIGIBLE_MODELS
    ensures |GraderModels(eligible)| == MIN_GRADERS && |GeneratorModels(eligible)| == MIN_GENERATORS
    ensures Distinct(PickedModels(eligible)) && forall m | m in PickedModels(eligible) :: m in eligible
    ensures GeneratorModels(eligible) == FirstGenerators(eligible)
  {
    var preferred := Filter(eligible, IsPreferredGrader);
    FilterDistinct(eligible, IsPreferredGrader);
    FilterMembers(eligible, IsPreferredGrader);
    var first := FirstOf(preferred, MIN_GRADERS);
    assert forall m | m in first :: m in preferred;
    FillNewFills(first, eligible, MIN_GRADERS);
    FillNewFacts(first, eligible, MIN_GRADERS);
    var graders := GraderModels(eligible);
    FillAvoidingFills(eligible, graders, MIN_GENERATORS);
    FillAvoidingFacts(eligible, graders, MIN_GENERATORS);
    FillNewIdle(FirstGenerators(eligible), eligible, MIN_GENERATORS);
    var generators := GeneratorModels(eligible);
    assert forall i | 0 <= i < |generators| :: generators[i] in generators;
    assert forall i | 0 <= i < |graders| :: graders[i] in graders;
  }

  /** Preferred graders are used first: a grader that is not preferred means fewer than two preferred models exist. */
  lemma PreferredGradersFirst(eligible: seq<string>)
    requires Distinct(eligible) && |eligible| >= MIN_SCOPED_ELIGIBLE_MODELS
    ensures var preferred := Filter(eligible, IsPreferredGrader);
      |preferred| >= MIN_GRADERS ==> GraderModels(eligible) == preferred[..MIN_GRADERS]
  {
    var first := FirstOf(Filter(eligible, IsPreferredGrader), MIN_GRADERS);
    if |first| >= MIN_GRADERS {
      FillNewIdle(first, eligible, MIN_GRADERS);
    }
  }

  // ---------------------------------------------------------------------------
  // The pick
  // ---------------------------------------------------------------------------

  function PicksOf(eligible: seq<string>): Result<Picks, PickError>
    requires Distinct(eligible)
  {
    if |eligible| < MIN_SCOPED_ELIGIBLE_MODELS then Err(TooFewModels(|eligible|))
    else
      PicksAreFourModels(eligible);
      var generators, graders := GeneratorModels(eligible), GraderModels(eligible);
      var malformed := Malformed(generators + graders);
      if malformed.Some? then Err(MalformedModel(malformed.value))
      else Ok(Picks(
        [ModelRef("gen-0", generators[0]), ModelRef("gen-1", generators[1])],
        [ModelRef("grader-0", graders[0]), ModelRef("grader-1", graders[1])]))
  }

  function Picked(enabled: seq<string>, leq: (string, string) -> bool): Result<Picks, PickError> {
    EligibleFacts(enabled, leq);
    PicksOf(EligibleModels(enabled, leq))
  }

  method PickScopedCampaignClients(enabled: seq<string>, leq: (string, string) -> bool) returns (r: Result<Picks, PickError>)
    ensures r == Picked(enabled, leq)
  {
    var eligible := EligibleModels(enabled, leq);
    EligibleFacts(enabled, leq);
    if |eligible| < MIN_SCOPED_ELIGIBLE_MODELS {
      return Err(TooFewModels(|eligible|));
    }
    PicksAreFourModels(eligible);
    var graders := TakeFirst(Filter(eligible, IsPreferredGrader), MIN_GRADERS);
    graders := TopUp(graders, eligible, MIN_GRADERS);
    var generators := TakeAvoiding(eligible, graders, MIN_GENERATORS);
    generators := TopUp(generators, eligible, MIN_GENERATORS);
    var malformed := Malformed(generators + graders);
    if malformed.Some? {
      return Err(MalformedModel(malformed.value));
    }
    return Ok(Picks(
      [ModelRef("gen-0", generators[0]), ModelRef("gen-1", generators[1])],
      [ModelRef("grader-0", graders[0]), ModelRef("grader-1", graders[1])]));
  }

  lemma {:induction false} MalformedDecides(models: seq<string>)
    ensures Malformed(models).None? <==> forall m | m in models :: WellFormed(m)
  {
    if |models| > 0 {
      MalformedDecides(models[1..]);
      assert models == [models[0]] + models[1..];
    }
  }

  /** Two generators and two graders, all four with different well-formed models from the set and different ids. */
  ghost predicate FourModels(picks: Picks, models: set<string>) {
    && |picks.generators| == MIN_GENERATORS && |picks.graders| == MIN_GRADERS
    && (forall r | r in picks.generators + picks.graders :: r.providerModel in models && WellFormed(r.providerModel))
    && var all := picks.generators + picks.graders;
       forall i, j | 0 <= i < j < |all| :: all[i].providerModel != all[j].providerModel && all[i].id != all[j].id
  }

  lemma NamedPicks(a: string, b: string, c: string, d: string, models: set<string>)
    requires Distinct([a, b, c, d]) && forall m | m in [a, b, c, d] :: m in models && WellFormed(m)
    ensures FourModels(Picks([ModelRef("gen-0", a), ModelRef("gen-1", b)], [ModelRef("grader-0", c), ModelRef("grader-1", d)]), models)
  {
    var s := [a, b, c, d];
    assert s[0] != s[1] && s[0] != s[2] && s[0] != s[3] && s[1] != s[2] && s[1] != s[3] && s[2] != s[3];
    assert a in s && b in s && c in s && d in s;
    assert "gen-0"[4] != "gen-1"[4] && "grader-0"[7] != "grader-1"[7] && |"gen-0"| != |"grader-0"|;
  }

  lemma EnoughModelsPick(eligible: seq<string>)
    requires Distinct(eligible)
    ensures |eligible| >= MIN_SCOPED_ELIGIBLE_MODELS && (forall m | m in eligible :: WellFormed(m)) ==> PicksOf(eligible).Ok?
    ensures PicksOf(eligible).Ok? ==> |eligible| >= MIN_SCOPED_ELIGIBLE_MODELS && FourModels(PicksOf(eligible).value, Elements(eligible))
  {
    if |eligible| >= MIN_SCOPED_ELIGIBLE_MODELS {
      PicksAreFourModels(eligible);
      var generators, graders := GeneratorModels(eligible), GraderModels(eligible);
      MalformedDecides(generators + graders);
      assert generators + graders == [generators[0], generators[1], graders[0], graders[1]];
      if Malformed(generators + graders).None? {
        NamedPicks(generators[0], generators[1], graders[0], graders[1], Elements(eligible));
      }
    }
  }

  /** Picking succeeds whenever four permitted well-formed models are enabled, and then on four distinct permitted models. */
  lemma ScopedPicksSucceed(enabled: seq<string>, leq: (string, string) -> bool)
    ensures |PermittedOf(enabled)| >= MIN_SCOPED_ELIGIBLE_MODELS && (forall m | m in PermittedOf(enabled) :: WellFormed(m))
      ==> Picked(enabled, leq).Ok?
    ensures Picked(enabled, leq).Ok? ==>
      |PermittedOf(enabled)| >= MIN_SCOPED_ELIGIBLE_MODELS && FourModels(Picked(enabled, leq).value, PermittedOf(enabled))
  {
    var eligible := EligibleModels(enabled, leq);
    EligibleFacts(enabled, leq);
    EnoughModelsPick(eligible);
    assert forall m | m in eligible :: m in Elements(eligible);
  }

  // ---------------------------------------------------------------------------
  // The campaign they feed
  // ---------------------------------------------------------------------------

  function ClientOf(r: ModelRef): Client { Client(r.id, Some(r.providerModel)) }

  function ClientsOf(refs: seq<ModelRef>): (c: seq<Client>)
    ensures |c| == |refs| && forall i | 0 <= i < |c| :: c[i] == ClientOf(refs[i])
  {
    seq(|refs|, i requires 0 <= i < |refs| => ClientOf(refs[i]))
  }

  lemma EnoughGraders(c: Campaign, t: nat, g: nat)
    requires InRange(c, t, g) && c.options.MaxGraders() >= MIN_GRADERS
    requires |Eligible(c.graders, c.generators[g])| >= MIN_GRADERS
    ensures Judge(c, t, g) != Err(TooFewEligibleGraders(t, g))
  {
    CollectError(GradedAll(c, t, g, Used(c.graders, c.generators[g], c.options.MaxGraders())));
  }

  /** A campaign run with the picked clients loses no grader to exclusion, so it never stops for want of graders. */
  lemma PicksNeverStarve(enabled: seq<string>, leq: (string, string) -> bool, c: Campaign)
    requires Picked(enabled, leq).Ok?
    requires c.generators == ClientsOf(Picked(enabled, leq).value.generators) && c.graders == ClientsOf(Picked(enabled, leq).value.graders)
    ensures forall g | g in c.generators :: Eligible(c.graders, g) == c.graders
    ensures forall t: nat, g: nat | InRange(c, t, g) && c.options.MaxGraders() >= MIN_GRADERS :: Judge(c, t, g) != Err(TooFewEligibleGraders(t, g))
  {
    ScopedPicksSucceed(enabled, leq);
    var picks := Picked(enabled, leq).value;
    forall g | g in c.generators ensures Eligible(c.graders, g) == c.graders {
      NoneExcluded(picks, PermittedOf(enabled), g, c.graders);
    }
    forall t: nat, g: nat | InRange(c, t, g) && c.options.MaxGraders() >= MIN_GRADERS
      ensures Judge(c, t, g) != Err(TooFewEligibleGraders(t, g))
    {
      assert c.generators[g] in c.generators;
      EnoughGraders(c, t, g);
    }
  }

  lemma NoneExcluded(picks: Picks, models: set<string>, g: Client, graders: seq<Client>)
    requires FourModels(picks, models) && g in ClientsOf(picks.generators) && graders == ClientsOf(picks.graders)
    ensures Eligible(graders, g) == graders
  {
    var all := picks.generators + picks.graders;
    var i :| 0 <= i < |picks.generators| && ClientsOf(picks.generators)[i] == g;
    forall j | 0 <= j < |graders| ensures !IsGraderExcluded(graders[j], g) {
      assert all[i] == picks.generators[i] && all[|picks.generators| + j] == picks.graders[j];
    }
    FilterUniform(graders, MayJudge(g), true);
  }
}
