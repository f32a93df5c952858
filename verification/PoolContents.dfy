/** What the training pool takes from its rows, sample by sample and tag by tag. */
module PoolContents {
  import opened Sorting
  import opened IsotonicCalibrator
  import opened HoldoutShare
  import opened TrainingPool

  function Signals(row: PackRow): seq<string> { if row.outcomeSignals.Some? then row.outcomeSignals.value else [] }

  /** Rows that may train: not marked as weak. */
  function Usable(): PackRow -> bool { (row: PackRow) => "exclude_from_holdout_ece" !in Signals(row) }

  function HeldOut(): PackRow -> bool { (row: PackRow) => "session_holdout" in Signals(row) }

  function Fitted(): PackRow -> bool { (row: PackRow) => "session_fit" in Signals(row) && "session_holdout" !in Signals(row) }

  function Untagged(): PackRow -> bool { (row: PackRow) => "session_fit" !in Signals(row) && "session_holdout" !in Signals(row) }

  /** Position by position, the samples carry the rows' ids, features and outcomes. */
  ghost predicate Carries(samples: seq<Sample>, rows: seq<PackRow>) {
    && |samples| == |rows|
    && forall i | 0 <= i < |rows| ::
         samples[i].requestId == rows[i].sampleId && samples[i].features == rows[i].features && samples[i].success == rows[i].success
  }

  lemma RowsCarry(rows: seq<PackRow>)
    ensures Carries(SamplesOfRows(rows), rows)
  {
  }

  lemma AcceptedAreUsable(packRows: seq<PackRow>)
    ensures AcceptedRows(packRows) == Filter(packRows, Usable())
  {
    FilterAgrees(packRows, (r: PackRow) => !IsWeakLabel(r), Usable());
  }

  /** The pool is the contributions followed by a sample for each usable row, in order, with the row's own outcome. */
  lemma PoolIsRows(contrib: seq<Sample>, packRows: seq<PackRow>)
    ensures var pool, rows := LabeledSamples(contrib, packRows), Filter(packRows, Usable());
      |pool| == |contrib| + |rows| && pool[..|contrib|] == contrib && Carries(pool[|contrib|..], rows)
  {
    AcceptedAreUsable(packRows);
    RowsCarry(AcceptedRows(packRows));
  }

  lemma PartsByTag(rows: seq<PackRow>)
    ensures PartitionOf(rows) == Partition(Filter(rows, Fitted()), Filter(rows, HeldOut()), Filter(rows, Untagged()))
  {
    FilterAgrees(rows, IsFitRow, Fitted());
    FilterAgrees(rows, IsHoldoutRow, HeldOut());
    FilterAgrees(rows, IsUnpartitioned, Untagged());
  }

  lemma TagsMakeParts(rows: seq<PackRow>)
    requires exists row | row in rows :: HeldOut()(row) || Fitted()(row)
    ensures PartitionOf(rows).HasSessionPartition()
  {
    PartsByTag(rows);
    FilterMembers(rows, HeldOut());
    FilterMembers(rows, Fitted());
  }

  lemma TaggedSplit(contrib: seq<Sample>, packRows: seq<PackRow>, rank: RankFunction)
    requires PartitionOf(AcceptedRows(packRows)).HasSessionPartition()
    ensures var s, p := TrainSplit(contrib, packRows, rank), PartitionOf(AcceptedRows(packRows));
      s == Split(contrib + SamplesOfRows(p.fit) + SamplesOfRows(p.unpartitioned), SamplesOfRows(p.holdout))
  {
  }

  lemma CarriesBoth(contrib: seq<Sample>, a: seq<PackRow>, b: seq<PackRow>)
    ensures var s := contrib + SamplesOfRows(a) + SamplesOfRows(b);
      s[..|contrib|] == contrib && Carries(s[|contrib|..], a + b)
  {
    var s := contrib + SamplesOfRows(a) + SamplesOfRows(b);
    assert s[|contrib|..] == SamplesOfRows(a) + SamplesOfRows(b);
  }

  /** When a usable row has a tag, the holdout is the tagged rows and the fit everything else. */
  lemma SplitIsRows(contrib: seq<Sample>, packRows: seq<PackRow>, rank: RankFunction)
    requires exists row | row in Filter(packRows, Usable()) :: HeldOut()(row) || Fitted()(row)
    ensures var s, rows := TrainSplit(contrib, packRows, rank), Filter(packRows, Usable());
      && Carries(s.holdout, Filter(rows, HeldOut()))
      && |s.fit| >= |contrib| && s.fit[..|contrib|] == contrib
      && Carries(s.fit[|contrib|..], Filter(rows, Fitted()) + Filter(rows, Untagged()))
  {
    var rows := AcceptedRows(packRows);
    AcceptedAreUsable(packRows);
    TagsMakeParts(rows);
    TaggedSplit(contrib, packRows, rank);
    PartsByTag(rows);
    RowsCarry(Filter(rows, HeldOut()));
    CarriesBoth(contrib, Filter(rows, Fitted()), Filter(rows, Untagged()));
  }

  lemma NoTagsNoParts(rows: seq<PackRow>)
    requires forall row | row in rows :: !HeldOut()(row) && !Fitted()(row)
    ensures !PartitionOf(rows).HasSessionPartition()
  {
    PartsByTag(rows);
    NoneKept(rows, HeldOut());
    NoneKept(rows, Fitted());
  }

  /** When no usable row has a tag, a fifth of the pool is held out: the samples that rank first under the fixed seed. */
  lemma UntaggedSplitIsByRank(contrib: seq<Sample>, packRows: seq<PackRow>, rank: RankFunction)
    requires forall row | row in Filter(packRows, Usable()) :: !HeldOut()(row) && !Fitted()(row)
    requires |LabeledSamples(contrib, packRows)| > 0
    ensures var s, pool := TrainSplit(contrib, packRows, rank), LabeledSamples(contrib, packRows);
      && ShareIs(|s.holdout|, |pool|, 0.2)
      && exists order: seq<nat> :: InRankOrder(order, RanksOf(pool, 0x5eed132, rank)) && At(s.holdout + s.fit, order, pool)
  {
    AcceptedAreUsable(packRows);
    NoTagsNoParts(AcceptedRows(packRows));
    SplitIsByRank(LabeledSamples(contrib, packRows), 0.2, 0x5eed132, rank);
  }

  // ---------------------------------------------------------------------------
  // Positives
  // ---------------------------------------------------------------------------

  function Positives(samples: seq<Sample>): nat {
    if |samples| == 0 then 0 else Positives(samples[..|samples| - 1]) + if samples[|samples| - 1].success then 1 else 0
  }

  function PositiveRows(rows: seq<PackRow>): nat {
    if |rows| == 0 then 0 else PositiveRows(rows[..|rows| - 1]) + if rows[|rows| - 1].success then 1 else 0
  }

  lemma {:induction false} PositivesConcat(a: seq<Sample>, b: seq<Sample>)
    ensures Positives(a + b) == Positives(a) + Positives(b)
  {
    if |b| == 0 {
      assert a + b == a;
    } else {
      assert (a + b)[..|a + b| - 1] == a + b[..|b| - 1];
      PositivesConcat(a, b[..|b| - 1]);
    }
  }

  lemma PositivesSnoc(a: seq<Sample>, x: Sample)
    ensures Positives(a + [x]) == Positives(a) + if x.success then 1 else 0
  {
    assert (a + [x])[..|a|] == a;
  }

  lemma PositivesMiddle(a: seq<Sample>, x: Sample, b: seq<Sample>)
    ensures Positives(a + [x] + b) == Positives(a + b) + if x.success then 1 else 0
  {
    PositivesConcat(a + [x], b);
    PositivesSnoc(a, x);
    PositivesConcat(a, b);
  }

  lemma PositivesWithout(a: seq<Sample>, i: nat)
    requires i < |a|
    ensures Positives(a) == Positives(a[..i] + a[i + 1..]) + if a[i].success then 1 else 0
  {
    SplitOut(a, i);
    PositivesMiddle(a[..i], a[i], a[i + 1..]);
  }

  lemma {:induction false} PositivesOfPermutation(a: seq<Sample>, b: seq<Sample>)
    requires multiset(a) == multiset(b)
    ensures Positives(a) == Positives(b)
    decreases |a|
  {
    if |a| == 0 {
      assert |multiset(b)| == 0;
    } else {
      var init, x := a[..|a| - 1], a[|a| - 1];
      assert a == init + [x];
      assert x in multiset(b);
      var i :| 0 <= i < |b| && b[i] == x;
      RemoveSame(init, x, b, i);
      PositivesWithout(b, i);
      PositivesOfPermutation(init, b[..i] + b[i + 1..]);
    }
  }

  lemma {:induction false} PositivesCarried(samples: seq<Sample>, rows: seq<PackRow>)
    requires Carries(samples, rows)
    ensures Positives(samples) == PositiveRows(rows)
  {
    if |rows| > 0 {
      PositivesCarried(samples[..|rows| - 1], rows[..|rows| - 1]);
    }
  }

  /** Fit and holdout together have the positives of the contributions and of the usable rows. */
  lemma PositivesKept(contrib: seq<Sample>, packRows: seq<PackRow>, rank: RankFunction)
    ensures var s := TrainSplit(contrib, packRows, rank);
      Positives(s.fit) + Positives(s.holdout) == Positives(contrib) + PositiveRows(Filter(packRows, Usable()))
  {
    var pool, s := LabeledSamples(contrib, packRows), TrainSplit(contrib, packRows, rank);
    PoolIntegrity(contrib, packRows, rank);
    PositivesOfPermutation(s.fit + s.holdout, pool);
    PositivesConcat(s.fit, s.holdout);
    PoolIsRows(contrib, packRows);
    PositivesCarried(pool[|contrib|..], Filter(packRows, Usable()));
    PositivesConcat(contrib, pool[|contrib|..]);
    assert pool == contrib + pool[|contrib|..];
  }
}
