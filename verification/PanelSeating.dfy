/** The greedy panel, said by positions: who is seated, and why everyone else is not. */
module PanelSeating {
  import opened Wrappers
  import opened Panel

  /** Two references that cannot sit together. */
  ghost predicate Clash(a: ModelRef, b: ModelRef) { a.providerModel == b.providerModel || a.id == b.id }

  /**
   * The panel sits the references at these positions, in order. Any other reference is the generator's
   * own model, clashes with one seated before it, or comes when the panel is full.
   */
  ghost predicate FirstCome(panel: seq<ModelRef>, at: seq<nat>, refs: seq<ModelRef>, generatorModel: string, size: nat) {
    && |at| == |panel| <= size
    && (forall j | 0 <= j < |at| :: at[j] < |refs| && panel[j] == refs[at[j]] && panel[j].providerModel != generatorModel)
    && (forall i, j | 0 <= i < j < |at| :: at[i] < at[j] && !Clash(panel[i], panel[j]))
    && forall p: nat | p < |refs| && p !in at :: PassedOver(panel, at, refs[p], p, generatorModel, size)
  }

  ghost predicate PassedOver(panel: seq<ModelRef>, at: seq<nat>, ref: ModelRef, p: nat, generatorModel: string, size: nat)
    requires |at| == |panel|
  {
    || ref.providerModel == generatorModel
    || (|panel| == size && forall j | 0 <= j < |at| :: at[j] < p)
    || exists j | 0 <= j < |at| :: at[j] < p && Clash(panel[j], ref)
  }

  /** The greedy pass seats first come, first seated. */
  lemma {:induction false} SeatedIsFirstCome(refs: seq<ModelRef>, generatorModel: string, size: nat) returns (at: seq<nat>)
    ensures FirstCome(Seated(refs, generatorModel, size), at, refs, generatorModel, size)
  {
    if |refs| == 0 {
      at := [];
    } else {
      var n := |refs| - 1;
      var init, ref := refs[..n], refs[n];
      var before := SeatedIsFirstCome(init, generatorModel, size);
      var panel := Seated(init, generatorModel, size);
      assert refs == init + [ref];
      if |panel| < size && Admits(panel, ref, generatorModel) {
        at := before + [n];
        SeatsOneMore(panel, before, init, ref, generatorModel, size);
      } else {
        at := before;
        PassesOneOver(panel, before, init, ref, generatorModel, size);
      }
    }
  }

  lemma SeatsOneMore(panel: seq<ModelRef>, at: seq<nat>, init: seq<ModelRef>, ref: ModelRef, generatorModel: string, size: nat)
    requires FirstCome(panel, at, init, generatorModel, size) && |panel| < size && Admits(panel, ref, generatorModel)
    ensures FirstCome(panel + [ref], at + [|init|], init + [ref], generatorModel, size)
  {
    var panel', at' := panel + [ref], at + [|init|];
    forall p: nat | p < |init| + 1 && p !in at' ensures PassedOver(panel', at', (init + [ref])[p], p, generatorModel, size) {
      assert at'[|at|] == |init|;
      assert p !in at && PassedOver(panel, at, init[p], p, generatorModel, size);
      if j :| 0 <= j < |at| && at[j] < p && Clash(panel[j], init[p]) {
        assert at'[j] == at[j] && panel'[j] == panel[j];
      }
    }
    forall j | 0 <= j < |panel| ensures !Clash(panel[j], ref) {
      assert panel[j] in panel;
    }
  }

  lemma PassesOneOver(panel: seq<ModelRef>, at: seq<nat>, init: seq<ModelRef>, ref: ModelRef, generatorModel: string, size: nat)
    requires FirstCome(panel, at, init, generatorModel, size) && !(|panel| < size && Admits(panel, ref, generatorModel))
    ensures FirstCome(panel, at, init + [ref], generatorModel, size)
  {
    if |panel| < size && ref.providerModel != generatorModel {
      var p :| p in panel && (p.providerModel == ref.providerModel || p.id == ref.id);
      var j :| 0 <= j < |panel| && panel[j] == p;
      assert at[j] < |init| && Clash(panel[j], ref);
    }
    assert PassedOver(panel, at, ref, |init|, generatorModel, size);
  }

  lemma SeatsAreTaken(panel: seq<ModelRef>, at: seq<nat>, refs: seq<ModelRef>, generatorModel: string, size: nat)
    requires FirstCome(panel, at, refs, generatorModel, size)
    ensures |panel| > 0 ==> |refs| > 0
  {
    if |panel| > 0 {
      assert at[0] < |refs|;
    }
  }

  /** Nobody else can be seated that way. */
  lemma {:induction false} FirstComeIsSeated(panel: seq<ModelRef>, at: seq<nat>, refs: seq<ModelRef>, generatorModel: string, size: nat)
    requires FirstCome(panel, at, refs, generatorModel, size)
    ensures panel == Seated(refs, generatorModel, size)
    decreases |refs|
  {
    if |refs| == 0 {
      SeatsAreTaken(panel, at, refs, generatorModel, size);
    } else {
      var n, k := |refs| - 1, |at| - 1;
      if |at| > 0 && at[k] == n {
        assert panel == panel[..k] + [refs[n]] && at == at[..k] + [n] && refs == refs[..n] + [refs[n]];
        LastIsSeated(panel[..k], at[..k], refs[..n], refs[n], generatorModel, size);
        FirstComeIsSeated(panel[..k], at[..k], refs[..n], generatorModel, size);
      } else {
        LastIsPassedOver(panel, at, refs, generatorModel, size);
        FirstComeIsSeated(panel, at, refs[..n], generatorModel, size);
      }
    }
  }

  lemma LastIsSeated(panel: seq<ModelRef>, at: seq<nat>, init: seq<ModelRef>, ref: ModelRef, generatorModel: string, size: nat)
    requires |at| == |panel| && FirstCome(panel + [ref], at + [|init|], init + [ref], generatorModel, size)
    ensures FirstCome(panel, at, init, generatorModel, size) && |panel| < size && Admits(panel, ref, generatorModel)
  {
    var panel', at' := panel + [ref], at + [|init|];
    assert forall j | 0 <= j < |at| :: at'[j] == at[j] && panel'[j] == panel[j];
    assert at'[|at|] == |init| && panel'[|at|] == ref;
    forall p: nat | p < |init| && p !in at ensures PassedOver(panel, at, init[p], p, generatorModel, size) {
      assert PassedOver(panel', at', (init + [ref])[p], p, generatorModel, size);
    }
    forall q | q in panel ensures !Clash(q, ref) {
      var j :| 0 <= j < |panel| && panel[j] == q;
    }
  }

  lemma LastIsPassedOver(panel: seq<ModelRef>, at: seq<nat>, refs: seq<ModelRef>, generatorModel: string, size: nat)
    requires FirstCome(panel, at, refs, generatorModel, size) && |refs| > 0 && (|at| > 0 ==> at[|at| - 1] != |refs| - 1)
    ensures var n := |refs| - 1;
      FirstCome(panel, at, refs[..n], generatorModel, size) && !(|panel| < size && Admits(panel, refs[n], generatorModel))
  {
    var n := |refs| - 1;
    forall j | 0 <= j < |at| ensures at[j] < n {
      assert j < |at| - 1 ==> at[j] < at[|at| - 1];
    }
    assert PassedOver(panel, at, refs[n], n, generatorModel, size);
  }

  /** A panel is selected exactly when it is full and was seated first come, first seated, the pool before the fill. */
  lemma PanelIsFirstCome(generatorModel: string, pool: seq<ModelRef>, fill: seq<ModelRef>, size: nat, panel: seq<ModelRef>)
    ensures SelectedPanel(generatorModel, pool, fill, size) == Ok(panel) <==>
      |panel| == size && exists at :: FirstCome(panel, at, pool + fill, generatorModel, size)
    ensures |panel| < size && (exists at :: FirstCome(panel, at, pool + fill, generatorModel, size)) ==>
      SelectedPanel(generatorModel, pool, fill, size) == Err(|panel|)
  {
    var at := SeatedIsFirstCome(pool + fill, generatorModel, size);
    if other :| FirstCome(panel, other, pool + fill, generatorModel, size) {
      FirstComeIsSeated(panel, other, pool + fill, generatorModel, size);
    }
  }

  /** A short panel was seated that way too. */
  lemma ShortPanelIsFirstCome(generatorModel: string, pool: seq<ModelRef>, fill: seq<ModelRef>, size: nat)
    requires SelectedPanel(generatorModel, pool, fill, size).Err?
    ensures exists panel, at ::
      |panel| == SelectedPanel(generatorModel, pool, fill, size).error < size && FirstCome(panel, at, pool + fill, generatorModel, size)
  {
    var at := SeatedIsFirstCome(pool + fill, generatorModel, size);
  }
}
