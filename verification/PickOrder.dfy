/** Which four models a scoped pick takes: the least of what is left, preferred graders first. */
module PickOrder {
  import opened Sorting
  import Grouping
  import opened Panel
  import opened ScopedPicks

  // ---------------------------------------------------------------------------
  // Names
  // ---------------------------------------------------------------------------

  /** The text stands in the name from position `i`. */
  ghost predicate StandsAt(name: string, text: string, i: nat) { i + |text| <= |name| && name[i..i + |text|] == text }

  /** The same letters, upper or lower case. */
  ghost predicate SameLetters(a: string, b: string) { |a| == |b| && forall i | 0 <= i < |a| :: SameLetter(a[i], b[i]) }

  ghost predicate SameLetter(a: char, b: char) {
    a == b || ('A' <= a <= 'Z' && b as int == a as int + 32) || ('A' <= b <= 'Z' && a as int == b as int + 32)
  }

  /** The word stands there in any case. */
  ghost predicate MentionedAt(name: string, word: string, i: nat) { i + |word| <= |name| && SameLetters(name[i..i + |word|], word) }

  ghost predicate Mentions(name: string, word: string) { exists i: nat :: MentionedAt(name, word, i) }

  /** Neither the router's own, nor a custom-tools model, nor the automatic one. */
  ghost predicate Allowed(model: string) {
    && !StandsAt(model, "smart-router/", 0) && (forall i: nat :: !StandsAt(model, "customtools", i)) && model != "cursor/auto"
  }

  /** A Google model whose name mentions flash or lite, in any case. */
  ghost predicate Favoured(model: string) {
    && |model| >= 7 && SameLetters(model[..7], "google/") && (Mentions(model, "flash") || Mentions(model, "lite"))
  }

  lemma {:induction false} ContainsIff(s: string, sub: string)
    ensures Contains(s, sub) <==> exists i: nat :: StandsAt(s, sub, i)
  {
    if sub <= s {
      assert StandsAt(s, sub, 0);
    } else if |s| > 0 {
      ContainsIff(s[1..], sub);
      if i: nat :| StandsAt(s[1..], sub, i) {
        assert s[1..][i..i + |sub|] == s[i + 1..i + 1 + |sub|];
        assert StandsAt(s, sub, i + 1);
      }
      if i: nat :| StandsAt(s, sub, i) {
        assert i > 0;
        assert s[1..][i - 1..i - 1 + |sub|] == s[i..i + |sub|];
        assert StandsAt(s[1..], sub, i - 1);
      }
    } else {
      assert |sub| > 0;
    }
  }

  lemma PermittedIff(model: string)
    ensures Permitted(model) <==> Allowed(model)
  {
    ContainsIff(model, "customtools");
    assert "smart-router/auto"[..13] == "smart-router/";
    assert StandsAt(model, "smart-router/", 0) <==> "smart-router/" <= model;
  }

  lemma LowerIff(a: string, lower: string)
    requires forall i | 0 <= i < |lower| :: !('A' <= lower[i] <= 'Z')
    ensures LowerAll(a) == lower <==> SameLetters(a, lower)
  {
    if SameLetters(a, lower) {
      assert forall i | 0 <= i < |a| :: Lower(a[i]) == lower[i];
    }
    if LowerAll(a) == lower {
      assert forall i | 0 <= i < |a| :: Lower(a[i]) == lower[i];
    }
  }

  lemma StandsLowered(name: string, word: string, i: nat)
    requires forall j | 0 <= j < |word| :: !('A' <= word[j] <= 'Z')
    ensures StandsAt(LowerAll(name), word, i) <==> MentionedAt(name, word, i)
  {
    if i + |word| <= |name| {
      assert LowerAll(name)[i..i + |word|] == LowerAll(name[i..i + |word|]);
      LowerIff(name[i..i + |word|], word);
    }
  }

  lemma MentionsIff(name: string, word: string)
    requires forall i | 0 <= i < |word| :: !('A' <= word[i] <= 'Z')
    ensures Contains(LowerAll(name), word) <==> Mentions(name, word)
  {
    ContainsIff(LowerAll(name), word);
    forall i: nat ensures StandsAt(LowerAll(name), word, i) <==> MentionedAt(name, word, i) {
      StandsLowered(name, word, i);
    }
  }

  lemma FavouredIff(model: string)
    ensures IsPreferredGrader(model) <==> Favoured(model)
  {
    MentionsIff(model, "flash");
    MentionsIff(model, "lite");
    if |model| >= 7 {
      assert LowerAll(model)[..7] == LowerAll(model[..7]);
      LowerIff(model[..7], "google/");
    }
  }

  // ---------------------------------------------------------------------------
  // The least of what is left
  // ---------------------------------------------------------------------------

  type Comparison = (string, string) -> bool

  ghost predicate TotalOrder(leq: Comparison) {
    TotalPreorder(leq) && forall a, b | leq(a, b) && leq(b, a) :: a == b
  }

  /** The least of these models. */
  ghost predicate Least(m: string, models: set<string>, leq: Comparison) { m in models && forall x | x in models :: leq(m, x) }

  ghost function AllowedOf(enabled: seq<string>): set<string> { set m | m in enabled && Allowed(m) }

  ghost function FavouredOf(models: set<string>): set<string> { set m | m in models && Favoured(m) }

  ghost predicate LeastGraders(x: string, y: string, models: set<string>, leq: Comparison) {
    var favoured := FavouredOf(models);
    && Least(x, if favoured == {} then models else favoured, leq)
    && Least(y, if favoured - {x} == {} then models - {x} else favoured - {x}, leq)
  }

  /**
   * Two graders: the least of the favoured models while there are any, else of all; then two generators,
   * the least of the models left.
   */
  ghost predicate PicksAre(picks: Picks, models: set<string>, leq: Comparison) {
    && |picks.generators| == 2 && |picks.graders| == 2
    && var x, y := picks.graders[0].providerModel, picks.graders[1].providerModel;
       var g, h := picks.generators[0].providerModel, picks.generators[1].providerModel;
       && LeastGraders(x, y, models, leq)
       && Least(g, models - {x, y}, leq) && Least(h, models - {x, y, g}, leq)
       && picks.graders == [ModelRef("grader-0", x), ModelRef("grader-1", y)]
       && picks.generators == [ModelRef("gen-0", g), ModelRef("gen-1", h)]
  }

  function Outside(avoid: seq<string>): string -> bool { (m: string) => m !in avoid }

  lemma FirstOfMore<T>(s: seq<T>, x: T, limit: nat)
    ensures FirstOf(s + [x], limit) == if |FirstOf(s, limit)| < limit then FirstOf(s, limit) + [x] else FirstOf(s, limit)
  {
  }

  /** Taking candidates outside a list takes the first of them. */
  lemma {:induction false} AvoidingIsFirst(source: seq<string>, avoid: seq<string>, limit: nat)
    ensures FillAvoiding(source, avoid, limit) == FirstOf(Filter(source, Outside(avoid)), limit)
  {
    if |source| > 0 {
      var init, m := source[..|source| - 1], source[|source| - 1];
      AvoidingIsFirst(init, avoid, limit);
      FirstOfMore(Filter(init, Outside(avoid)), m, limit);
      assert Filter(init, Outside(avoid)) + [] == Filter(init, Outside(avoid));
    }
  }

  lemma NewAddsOne(start: seq<string>, left: seq<string>, m: string, limit: nat)
    requires |start| <= limit && m !in left
    ensures var filled := start + FirstOf(left, limit - |start|);
      (if |filled| < limit && m !in filled then filled + [m] else filled)
      == start + FirstOf(left + (if Outside(start)(m) then [m] else []), limit - |start|)
  {
    FirstOfMore(left, m, limit - |start|);
    assert left + [] == left && forall x | x in FirstOf(left, limit - |start|) :: x in left;
  }

  /** Adding unseen candidates adds the first of them. */
  lemma {:induction false} NewIsFirst(start: seq<string>, source: seq<string>, limit: nat)
    requires Distinct(source) && |start| <= limit
    ensures FillNew(start, source, limit) == start + FirstOf(Filter(source, Outside(start)), limit - |start|)
  {
    if |source| > 0 {
      var init, m := source[..|source| - 1], source[|source| - 1];
      assert source == init + [m] && m !in init;
      NewIsFirst(start, init, limit);
      FilterMembers(init, Outside(start));
      NewAddsOne(start, Filter(init, Outside(start)), m, limit);
    }
  }

  lemma {:induction false} FilterSorted(s: seq<string>, p: string -> bool, leq: Comparison)
    requires SortedBy(s, leq)
    ensures SortedBy(Filter(s, p), leq)
  {
    if |s| > 0 {
      var init, m := s[..|s| - 1], s[|s| - 1];
      assert s == init + [m] && SortedBy(init, leq);
      FilterSorted(init, p, leq);
      FilterMembers(init, p);
      forall x | x in init ensures leq(x, m) {
        var i :| 0 <= i < |init| && init[i] == x;
        assert s[i] == x;
      }
    }
  }

  ghost function Matching(s: seq<string>, p: string -> bool): set<string> { set m | m in s && p(m) }

  /** In a sorted list without repeats the first match is the least, and the second the least of the rest. */
  lemma FirstMatches(s: seq<string>, p: string -> bool, leq: Comparison)
    requires SortedBy(s, leq) && Distinct(s) && TotalOrder(leq)
    ensures var f, all := Filter(s, p), Matching(s, p);
      && (|f| == 0 <==> all == {}) && (|f| >= 1 ==> Least(f[0], all, leq))
      && (|f| == 1 ==> all == {f[0]}) && (|f| >= 2 ==> Least(f[1], all - {f[0]}, leq))
  {
    var f, all := Filter(s, p), Matching(s, p);
    FilterSorted(s, p, leq);
    FilterDistinct(s, p);
    FilterMembers(s, p);
    assert forall m :: m in all <==> m in f;
    if |f| >= 1 {
      assert f[0] in all;
    }
    if |f| >= 2 {
      assert f[1] in all - {f[0]};
    }
  }

  /** The list of all models to choose from, in order, each once. */
  ghost predicate Lists(eligible: seq<string>, models: set<string>, leq: Comparison) {
    SortedBy(eligible, leq) && Distinct(eligible) && TotalOrder(leq) && |eligible| >= 4 && models == Elements(eligible)
  }

  lemma TwoFavouredGrade(eligible: seq<string>, models: set<string>, leq: Comparison)
    requires Lists(eligible, models, leq) && |Filter(eligible, IsPreferredGrader)| >= 2
    ensures |GraderModels(eligible)| == 2 && LeastGraders(GraderModels(eligible)[0], GraderModels(eligible)[1], models, leq)
  {
    PreferredAreFavoured(eligible, models);
    FirstMatches(eligible, IsPreferredGrader, leq);
    PreferredGradersFirst(eligible);
  }

  /** Fewer than two favoured models are all taken, and the least of the rest after them. */
  lemma FillersGrade(eligible: seq<string>, models: set<string>, leq: Comparison, preferred: seq<string>)
    requires Lists(eligible, models, leq) && preferred == Filter(eligible, IsPreferredGrader) && |preferred| < 2
    ensures var graders, left := GraderModels(eligible), Filter(eligible, Outside(preferred));
      && |graders| == 2 && graders == preferred + FirstOf(left, 2 - |preferred|)
      && Matching(eligible, Outside(preferred)) == models - Elements(preferred)
  {
    PicksAreFourModels(eligible);
    NewIsFirst(preferred, eligible, 2);
  }

  lemma OneFavouredGrades(eligible: seq<string>, models: set<string>, leq: Comparison)
    requires Lists(eligible, models, leq) && |Filter(eligible, IsPreferredGrader)| == 1
    ensures |GraderModels(eligible)| == 2 && LeastGraders(GraderModels(eligible)[0], GraderModels(eligible)[1], models, leq)
  {
    var preferred := Filter(eligible, IsPreferredGrader);
    PreferredAreFavoured(eligible, models);
    FirstMatches(eligible, IsPreferredGrader, leq);
    FillersGrade(eligible, models, leq, preferred);
    assert Elements(preferred) == {preferred[0]};
    FirstMatches(eligible, Outside(preferred), leq);
    OnlyFavoured(preferred[0], models, leq, Filter(eligible, Outside(preferred))[0]);
  }

  lemma OnlyFavoured(x: string, models: set<string>, leq: Comparison, y: string)
    requires FavouredOf(models) == {x} && leq(x, x) && Least(y, models - {x}, leq)
    ensures LeastGraders(x, y, models, leq)
  {
    assert FavouredOf(models) - {x} == {};
  }

  lemma NoneFavouredGrades(eligible: seq<string>, models: set<string>, leq: Comparison)
    requires Lists(eligible, models, leq) && |Filter(eligible, IsPreferredGrader)| == 0
    ensures |GraderModels(eligible)| == 2 && LeastGraders(GraderModels(eligible)[0], GraderModels(eligible)[1], models, leq)
  {
    PreferredAreFavoured(eligible, models);
    FirstMatches(eligible, IsPreferredGrader, leq);
    FillersGrade(eligible, models, leq, []);
    FirstMatches(eligible, Outside([]), leq);
    assert Elements([]) == {} && models - {} == models;
  }

  /** Graders are the least two models, favoured ones first. */
  lemma GradersAreLeast(eligible: seq<string>, models: set<string>, leq: Comparison)
    requires Lists(eligible, models, leq)
    ensures |GraderModels(eligible)| == 2 && LeastGraders(GraderModels(eligible)[0], GraderModels(eligible)[1], models, leq)
  {
    if |Filter(eligible, IsPreferredGrader)| >= 2 {
      TwoFavouredGrade(eligible, models, leq);
    } else if |Filter(eligible, IsPreferredGrader)| == 1 {
      OneFavouredGrades(eligible, models, leq);
    } else {
      NoneFavouredGrades(eligible, models, leq);
    }
  }

  lemma PreferredAreFavoured(eligible: seq<string>, models: set<string>)
    requires models == Elements(eligible)
    ensures Matching(eligible, IsPreferredGrader) == FavouredOf(models)
  {
    forall m ensures IsPreferredGrader(m) <==> Favoured(m) {
      FavouredIff(m);
    }
  }

  /** The generator models are the least two of the rest. */
  lemma GeneratorsAreLeast(eligible: seq<string>, models: set<string>, leq: Comparison)
    requires Lists(eligible, models, leq)
    ensures var graders, generators := GraderModels(eligible), GeneratorModels(eligible);
      && |graders| == 2 && |generators| == 2
      && Least(generators[0], models - {graders[0], graders[1]}, leq)
      && Least(generators[1], models - {graders[0], graders[1], generators[0]}, leq)
  {
    PicksAreFourModels(eligible);
    var graders := GraderModels(eligible);
    AvoidingIsFirst(eligible, graders, 2);
    FirstMatches(eligible, Outside(graders), leq);
    var f := Filter(eligible, Outside(graders));
    assert Matching(eligible, Outside(graders)) == models - {graders[0], graders[1]};
    assert models - {graders[0], graders[1]} - {f[0]} == models - {graders[0], graders[1], f[0]};
  }

  lemma AllowedAreEligible(enabled: seq<string>, leq: Comparison)
    requires TotalOrder(leq)
    ensures var eligible := EligibleModels(enabled, leq);
      SortedBy(eligible, leq) && Distinct(eligible) && Elements(eligible) == AllowedOf(enabled) && |eligible| == |AllowedOf(enabled)|
  {
    EligibleFacts(enabled, leq);
    forall m ensures Permitted(m) <==> Allowed(m) {
      PermittedIff(m);
    }
    assert PermittedOf(enabled) == AllowedOf(enabled);
    var once := Grouping.KeyOrder(enabled, (m: string) => m);
    SortSorts(Filter(Filter(once, (m: string) => !IsExcludedFromCampaign(m)), (m: string) => !IsForbiddenGrader(m)), leq);
  }

  lemma NamedPicksAre(eligible: seq<string>, models: set<string>, leq: Comparison)
    requires Lists(eligible, models, leq) && PicksOf(eligible).Ok?
    ensures PicksAre(PicksOf(eligible).value, models, leq)
  {
    GradersAreLeast(eligible, models, leq);
    GeneratorsAreLeast(eligible, models, leq);
  }

  /** For any total order of names, what a successful pick takes. */
  lemma PicksAreLeast(enabled: seq<string>, leq: Comparison)
    requires TotalOrder(leq)
    ensures |AllowedOf(enabled)| < 4 <==> Picked(enabled, leq).Err? && Picked(enabled, leq).error.TooFewModels?
    ensures Picked(enabled, leq).Ok? ==> PicksAre(Picked(enabled, leq).value, AllowedOf(enabled), leq)
  {
    AllowedAreEligible(enabled, leq);
    if Picked(enabled, leq).Ok? {
      NamedPicksAre(EligibleModels(enabled, leq), AllowedOf(enabled), leq);
    }
  }
}
