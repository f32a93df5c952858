/** How far a greedy panel can fall behind an independent one: exactly by half. */
module PanelReach {
  import opened Panel

  // ---------------------------------------------------------------------------
  // References that trap the greedy pass
  // ---------------------------------------------------------------------------

  /** The generator's own model, which none of the references has. */
  const GENERATOR := "g"

  /** Names told apart by letter and length. */
  function Tag(c: char, k: nat): (s: string)
    ensures |s| == k + 1 && s[0] == c
  {
    seq(k + 1, _ => c)
  }

  /** Takes the id of one independent reference and the model of another. */
  function Hub(k: nat): ModelRef { ModelRef(Tag('a', k), Tag('a', k)) }

  /** The two it blocks, for even and odd positions. */
  function Spoke(i: nat): ModelRef {
    if i % 2 == 0 then ModelRef(Tag('a', i / 2), Tag('b', i / 2)) else ModelRef(Tag('b', i / 2), Tag('a', i / 2))
  }

  function Hubs(n: nat): seq<ModelRef> { seq(n, i requires 0 <= i < n => Hub(i)) }

  function Spokes(n: nat): seq<ModelRef> { seq(n, i requires 0 <= i < n => Spoke(i)) }

  /** One hub and the two it blocks, offered in that order. */
  function Round(refs: seq<ModelRef>, n: nat): seq<ModelRef> { refs + [Hub(n)] + [Spoke(2 * n)] + [Spoke(2 * n + 1)] }

  lemma TagsDiffer(c: char, k: nat, d: char, l: nat)
    ensures c != d || k != l ==> Tag(c, k) != Tag(d, l)
    ensures c != 'g' ==> Tag(c, k) != GENERATOR
  {
    assert Tag(c, k)[0] == c && Tag(d, l)[0] == d && GENERATOR[0] == 'g';
  }

  /** Both spokes of each of the first n hubs are among the references. */
  ghost predicate Listed(refs: seq<ModelRef>, n: nat) { forall k | 0 <= k < n :: SpokesIn(refs, k) }

  ghost predicate SpokesIn(refs: seq<ModelRef>, k: nat) { Spoke(2 * k) in refs && Spoke(2 * k + 1) in refs }

  lemma RoundLists(refs: seq<ModelRef>, n: nat)
    requires Listed(refs, n)
    ensures Listed(Round(refs, n), n + 1)
  {
    var r := Round(refs, n);
    assert r[|refs| + 1] == Spoke(2 * n) && r[|refs| + 2] == Spoke(2 * n + 1);
    assert forall x | x in refs :: x in r;
    forall k | 0 <= k < n ensures SpokesIn(r, k) {
      assert SpokesIn(refs, k);
    }
  }

  lemma SpokeListed(refs: seq<ModelRef>, n: nat, i: nat)
    requires Listed(refs, n) && i < 2 * n
    ensures Spoke(i) in refs
  {
    assert SpokesIn(refs, i / 2);
    assert i == 2 * (i / 2) || i == 2 * (i / 2) + 1;
  }

  lemma SpokesDiffer(i: nat, j: nat)
    requires i < j
    ensures Spoke(i).providerModel != Spoke(j).providerModel && Spoke(i).id != Spoke(j).id
  {
    TagsDiffer(if i % 2 == 0 then 'b' else 'a', i / 2, if j % 2 == 0 then 'b' else 'a', j / 2);
    TagsDiffer(if i % 2 == 0 then 'a' else 'b', i / 2, if j % 2 == 0 then 'a' else 'b', j / 2);
  }

  lemma SpokesAreIndependent(m: nat, refs: seq<ModelRef>, n: nat)
    requires Listed(refs, n) && m <= 2 * n
    ensures Independent(Spokes(m), refs, GENERATOR)
  {
    forall p | p in Spokes(m) ensures p in refs && p.providerModel != GENERATOR {
      var i :| 0 <= i < m && p == Spoke(i);
      SpokeListed(refs, n, i);
    }
    forall i, j | 0 <= i < j < m ensures Spokes(m)[i].providerModel != Spokes(m)[j].providerModel && Spokes(m)[i].id != Spokes(m)[j].id {
      SpokesDiffer(i, j);
    }
  }

  lemma HubsSnoc(n: nat)
    ensures Hubs(n + 1) == Hubs(n) + [Hub(n)]
  {
  }

  lemma HubAdmitted(n: nat)
    ensures Admits(Hubs(n), Hub(n), GENERATOR)
  {
    forall p | p in Hubs(n) ensures p.providerModel != Hub(n).providerModel && p.id != Hub(n).id {
      var i :| 0 <= i < n && p == Hub(i);
      TagsDiffer('a', i, 'a', n);
    }
  }

  lemma SpokesRefused(n: nat)
    ensures !Admits(Hubs(n + 1), Spoke(2 * n), GENERATOR) && !Admits(Hubs(n + 1), Spoke(2 * n + 1), GENERATOR)
  {
    assert Hubs(n + 1)[n] == Hub(n);
    assert Hub(n) in Hubs(n + 1);
  }

  lemma RefusedStays(refs: seq<ModelRef>, ref: ModelRef, panel: seq<ModelRef>, size: nat)
    requires Seated(refs, GENERATOR, size) == panel && !Admits(panel, ref, GENERATOR)
    ensures Seated(refs + [ref], GENERATOR, size) == panel
  {
    SeatedSnoc(refs, ref, GENERATOR, size);
  }

  lemma HubSeated(refs: seq<ModelRef>, n: nat, size: nat)
    requires Seated(refs, GENERATOR, size) == Hubs(n) && n < size
    ensures Seated(refs + [Hub(n)], GENERATOR, size) == Hubs(n + 1)
  {
    HubAdmitted(n);
    HubsSnoc(n);
    SeatedSnoc(refs, Hub(n), GENERATOR, size);
  }

  ghost predicate SeatsHubs(refs: seq<ModelRef>, n: nat, size: nat) { Seated(refs, GENERATOR, size) == Hubs(n) }

  lemma RoundSeats(refs: seq<ModelRef>, n: nat, size: nat)
    requires SeatsHubs(refs, n, size) && n < size
    ensures SeatsHubs(Round(refs, n), n + 1, size)
  {
    HubSeated(refs, n, size);
    SpokesRefused(n);
    RefusedStays(refs + [Hub(n)], Spoke(2 * n), Hubs(n + 1), size);
    RefusedStays(refs + [Hub(n)] + [Spoke(2 * n)], Spoke(2 * n + 1), Hubs(n + 1), size);
  }

  /** References on which the pass seats n hubs, each of them keeping two independent references out. */
  lemma {:induction false} Trap(n: nat, size: nat) returns (refs: seq<ModelRef>)
    requires n <= size
    ensures SeatsHubs(refs, n, size) && Listed(refs, n)
  {
    refs := [];
    if n > 0 {
      var before := Trap(n - 1, size);
      RoundSeats(before, n - 1, size);
      RoundLists(before, n - 1);
      refs := Round(before, n - 1);
    }
  }

  // ---------------------------------------------------------------------------
  // The exact reach
  // ---------------------------------------------------------------------------

  /** Wherever an independent panel of `count` exists, the greedy pass seats one of `size`. */
  ghost predicate Reaches(count: nat, size: nat) {
    forall generatorModel, pool, fill, other :: Independent(other, pool + fill, generatorModel) && |other| == count ==>
      SelectedPanel(generatorModel, pool, fill, size).Ok?
  }

  /** The greedy pass is sure to seat a panel where one of `count` exists exactly from twice the size less one on. */
  lemma GreedyReach(count: nat, size: nat)
    ensures Reaches(count, size) <==> count + 1 >= 2 * size
  {
    if count + 1 >= 2 * size {
      forall generatorModel, pool, fill, other | Independent(other, pool + fill, generatorModel) && |other| == count
        ensures SelectedPanel(generatorModel, pool, fill, size).Ok?
      {
        ShortPanelIsHalf(generatorModel, pool, fill, size, other);
      }
    } else {
      var refs := Trap(size - 1, size);
      SpokesAreIndependent(count, refs, size - 1);
      assert refs + [] == refs;
      assert SelectedPanel(GENERATOR, refs, [], size).Err?;
    }
  }
}
