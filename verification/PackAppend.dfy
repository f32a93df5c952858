/** Appending resolved rows to the fit and holdout packs, skipping sample ids already present. */
module PackAppend {
  import opened Labelling
  import opened Adjudication

  datatype Packs = Packs(fit: seq<LabelRow>, holdout: seq<LabelRow>) {
    predicate Has(id: string) { (exists r | r in fit :: r.sampleId == id) || exists r | r in holdout :: r.sampleId == id }
  }

  /** One resolved entry: skipped when its id is present, else pushed on its side. */
  function Push(packs: Packs, entry: ResolvedEntry): Packs {
    if packs.Has(entry.row.sampleId) then packs
    else if entry.holdout then packs.(holdout := packs.holdout + [entry.row])
    else packs.(fit := packs.fit + [entry.row])
  }

  function Appended(packs: Packs, resolved: seq<ResolvedEntry>): Packs {
    if |resolved| == 0 then packs else Push(Appended(packs, resolved[..|resolved| - 1]), resolved[|resolved| - 1])
  }

  ghost predicate Seen(seen: set<string>, packs: Packs) { forall id :: id in seen <==> packs.Has(id) }

  method SeenIds(packs: Packs) returns (seen: set<string>)
    ensures Seen(seen, packs)
  {
    seen := {};
    var i := 0;
    while i < |packs.fit|
      invariant 0 <= i <= |packs.fit|
      invariant forall id :: id in seen <==> exists j | 0 <= j < i :: packs.fit[j].sampleId == id
    {
      seen := seen + {packs.fit[i].sampleId};
      i := i + 1;
    }
    i := 0;
    while i < |packs.holdout|
      invariant 0 <= i <= |packs.holdout|
      invariant forall id :: id in seen <==>
        (exists r | r in packs.fit :: r.sampleId == id) || exists j | 0 <= j < i :: packs.holdout[j].sampleId == id
    {
      seen := seen + {packs.holdout[i].sampleId};
      i := i + 1;
    }
  }

  method AppendPackRowsDeduped(packs: Packs, resolved: seq<ResolvedEntry>)
    returns (after: Packs, fitAppended: nat, holdoutAppended: nat)
    ensures after == Appended(packs, resolved)
    ensures |after.fit| == |packs.fit| + fitAppended && |after.holdout| == |packs.holdout| + holdoutAppended
  {
    var seen := SeenIds(packs);
    var fit, holdout := packs.fit, packs.holdout;
    fitAppended, holdoutAppended := 0, 0;
    var i := 0;
    while i < |resolved|
      invariant 0 <= i <= |resolved|
      invariant Packs(fit, holdout) == Appended(packs, resolved[..i])
      invariant Seen(seen, Packs(fit, holdout))
      invariant |fit| == |packs.fit| + fitAppended && |holdout| == |packs.holdout| + holdoutAppended
    {
      var entry := resolved[i];
      assert resolved[..i + 1] == resolved[..i] + [entry];
      if entry.row.sampleId !in seen {
        seen := seen + {entry.row.sampleId};
        if entry.holdout {
          holdout, holdoutAppended := holdout + [entry.row], holdoutAppended + 1;
        } else {
          fit, fitAppended := fit + [entry.row], fitAppended + 1;
        }
      }
      i := i + 1;
    }
    assert resolved[..i] == resolved;
    after := Packs(fit, holdout);
  }

  // ---------------------------------------------------------------------------
  // What appending keeps
  // ---------------------------------------------------------------------------

  ghost predicate ResolvedTo(resolved: seq<ResolvedEntry>, holdout: bool, row: LabelRow) {
    exists e | e in resolved :: e.holdout == holdout && e.row == row
  }

  /** Rows past the old ones all come from resolved entries, each on its entry's side. */
  ghost predicate GrownFrom(packs: Packs, after: Packs, resolved: seq<ResolvedEntry>) {
    && packs.fit <= after.fit && packs.holdout <= after.holdout
    && (forall k | |packs.fit| <= k < |after.fit| :: ResolvedTo(resolved, false, after.fit[k]))
    && forall k | |packs.holdout| <= k < |after.holdout| :: ResolvedTo(resolved, true, after.holdout[k])
  }

  lemma {:induction false} AppendKeepsRows(packs: Packs, resolved: seq<ResolvedEntry>)
    ensures GrownFrom(packs, Appended(packs, resolved), resolved)
    ensures forall id :: Appended(packs, resolved).Has(id) <==> packs.Has(id) || exists e | e in resolved :: e.row.sampleId == id
  {
    if |resolved| > 0 {
      var init, e := resolved[..|resolved| - 1], resolved[|resolved| - 1];
      AppendKeepsRows(packs, init);
      assert resolved == init + [e];
      PushHas(Appended(packs, init), e);
    }
  }

  lemma PushHas(packs: Packs, entry: ResolvedEntry)
    ensures forall id :: Push(packs, entry).Has(id) <==> packs.Has(id) || entry.row.sampleId == id
  {
    var after := Push(packs, entry);
    assert forall r | r in packs.fit :: r in after.fit;
    assert forall r | r in packs.holdout :: r in after.holdout;
    assert !packs.Has(entry.row.sampleId) ==> entry.row in after.fit || entry.row in after.holdout;
  }

  /** Entries whose ids are all present add nothing. */
  lemma {:induction false} PresentIdsAddNothing(packs: Packs, resolved: seq<ResolvedEntry>)
    requires forall e | e in resolved :: packs.Has(e.row.sampleId)
    ensures Appended(packs, resolved) == packs
  {
    if |resolved| > 0 {
      assert resolved[|resolved| - 1] in resolved;
      PresentIdsAddNothing(packs, resolved[..|resolved| - 1]);
    }
  }

  /** Appending the same list, or any part of it in any order, a second time changes nothing. */
  lemma AppendIsIdempotent(packs: Packs, resolved: seq<ResolvedEntry>, again: seq<ResolvedEntry>)
    requires forall e | e in again :: e in resolved
    ensures Appended(Appended(packs, resolved), again) == Appended(packs, resolved)
  {
    AppendKeepsRows(packs, resolved);
    PresentIdsAddNothing(Appended(packs, resolved), again);
  }

  function SampleIds(rows: seq<LabelRow>): (ids: seq<string>)
    ensures |ids| == |rows| && forall i | 0 <= i < |ids| :: ids[i] == rows[i].sampleId
  {
    seq(|rows|, i requires 0 <= i < |rows| => rows[i].sampleId)
  }

  /** No sample id occurs twice across the two packs. */
  ghost predicate UniqueIds(packs: Packs) {
    var ids := SampleIds(packs.fit) + SampleIds(packs.holdout);
    forall i, j | 0 <= i < j < |ids| :: ids[i] != ids[j]
  }

  /** Packs without a repeated id stay so. */
  lemma {:induction false} AppendKeepsIdsUnique(packs: Packs, resolved: seq<ResolvedEntry>)
    requires UniqueIds(packs)
    ensures UniqueIds(Appended(packs, resolved))
  {
    if |resolved| > 0 {
      AppendKeepsIdsUnique(packs, resolved[..|resolved| - 1]);
      PushKeepsIdsUnique(Appended(packs, resolved[..|resolved| - 1]), resolved[|resolved| - 1]);
    }
  }

  lemma PushKeepsIdsUnique(packs: Packs, entry: ResolvedEntry)
    requires UniqueIds(packs)
    ensures UniqueIds(Push(packs, entry))
  {
    var id := entry.row.sampleId;
    if !packs.Has(id) {
      var f, h := SampleIds(packs.fit), SampleIds(packs.holdout);
      assert forall i | 0 <= i < |f| :: packs.fit[i] in packs.fit && f[i] != id;
      assert forall i | 0 <= i < |h| :: packs.holdout[i] in packs.holdout && h[i] != id;
      InsertKeepsDistinct(f, h, id);
      assert SampleIds(packs.fit + [entry.row]) == f + [id];
      assert SampleIds(packs.holdout + [entry.row]) == h + [id];
    }
  }

  lemma InsertKeepsDistinct(f: seq<string>, h: seq<string>, id: string)
    requires forall i, j | 0 <= i < j < |f + h| :: (f + h)[i] != (f + h)[j]
    requires id !in f && id !in h
    ensures forall i, j | 0 <= i < j < |(f + [id]) + h| :: ((f + [id]) + h)[i] != ((f + [id]) + h)[j]
    ensures forall i, j | 0 <= i < j < |f + (h + [id])| :: (f + (h + [id]))[i] != (f + (h + [id]))[j]
  {
    var s, t := f + h, (f + [id]) + h;
    assert forall k | 0 <= k < |f| :: t[k] == s[k];
    assert forall k | |f| < k < |t| :: t[k] == s[k - 1];
    assert f + (h + [id]) == s + [id];
  }

  ghost function FreshIds(packs: Packs, resolved: seq<ResolvedEntry>): set<string> {
    set e | e in resolved && !packs.Has(e.row.sampleId) :: e.row.sampleId
  }

  /** One row is added for each new id, however often it is listed. */
  lemma {:induction false} AppendAddsEachNewIdOnce(packs: Packs, resolved: seq<ResolvedEntry>)
    ensures var after := Appended(packs, resolved);
      |after.fit| + |after.holdout| == |packs.fit| + |packs.holdout| + |FreshIds(packs, resolved)|
  {
    if |resolved| > 0 {
      var init, e := resolved[..|resolved| - 1], resolved[|resolved| - 1];
      var id := e.row.sampleId;
      AppendAddsEachNewIdOnce(packs, init);
      AppendKeepsRows(packs, init);
      assert resolved == init + [e];
      if Appended(packs, init).Has(id) {
        assert FreshIds(packs, resolved) == FreshIds(packs, init);
      } else {
        assert FreshIds(packs, resolved) == FreshIds(packs, init) + {id};
      }
    } else {
      assert FreshIds(packs, resolved) == {};
    }
  }

  lemma PushExtends(packs: Packs, entry: ResolvedEntry)
    ensures packs.fit <= Push(packs, entry).fit && packs.holdout <= Push(packs, entry).holdout
  {
  }

  /** Earlier entries' rows stay where they are. */
  lemma {:induction false} AppendedExtends(packs: Packs, resolved: seq<ResolvedEntry>, n: nat)
    requires n <= |resolved|
    ensures Appended(packs, resolved[..n]).fit <= Appended(packs, resolved).fit
    ensures Appended(packs, resolved[..n]).holdout <= Appended(packs, resolved).holdout
    decreases |resolved|
  {
    if n == |resolved| {
      assert resolved[..n] == resolved;
    } else {
      assert resolved[..|resolved| - 1][..n] == resolved[..n];
      AppendedExtends(packs, resolved[..|resolved| - 1], n);
      PushExtends(Appended(packs, resolved[..|resolved| - 1]), resolved[|resolved| - 1]);
    }
  }

  /** Of the entries that share a new id, the first gives its row, on its own side, right after what was there by then. */
  lemma FirstEntryIsAppended(packs: Packs, resolved: seq<ResolvedEntry>, i: nat)
    requires i < |resolved| && !packs.Has(resolved[i].row.sampleId)
    requires forall j | 0 <= j < i :: resolved[j].row.sampleId != resolved[i].row.sampleId
    ensures var before, after, e := Appended(packs, resolved[..i]), Appended(packs, resolved), resolved[i];
      if e.holdout then before.holdout + [e.row] <= after.holdout else before.fit + [e.row] <= after.fit
  {
    AppendKeepsRows(packs, resolved[..i]);
    assert resolved[..i + 1][..i] == resolved[..i];
    AppendedExtends(packs, resolved, i + 1);
  }
}
