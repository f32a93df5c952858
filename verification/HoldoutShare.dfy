/** The hash split, said by positions: how many samples it holds out, which, and in what order. */
module HoldoutShare {
  import opened Sorting
  import opened MappedLists
  import opened IsotonicPooling
  import opened IsotonicCalibrator

  /** The nearest whole number to the share, but at least one, and never all when there are two. */
  ghost predicate ShareIs(held: int, n: nat, fraction: real) {
    if fraction <= 0.0 then held == 0
    else if n == 1 then held == 1
    else
      var share := if fraction >= 1.0 then n as real else n as real * fraction;
      && 1 <= held <= n - 1
      && (held > 1 ==> held as real - 0.5 <= share) && (held < n - 1 ==> share < held as real + 0.5)
  }

  lemma HoldoutCountIsShare(n: nat, fraction: real)
    requires n >= 1
    ensures ShareIs(HoldoutCount(n, fraction), n, fraction)
  {
    ClampedShare(n, fraction);
    if fraction > 0.0 {
      WantedShare(n as real * Clamp01(fraction));
    }
  }

  lemma ClampedShare(n: nat, fraction: real)
    requires n >= 1
    ensures fraction <= 0.0 ==> Clamp01(fraction) == 0.0
    ensures fraction > 0.0 ==> n as real * Clamp01(fraction) == if fraction >= 1.0 then n as real else n as real * fraction
    ensures fraction > 0.0 ==> 0.0 < Clamp01(fraction) <= 1.0
  {
  }

  lemma WantedShare(share: real)
    ensures Round(share) as real - 0.5 <= share < Round(share) as real + 0.5
  {
  }

  // ---------------------------------------------------------------------------
  // Which samples, in what order
  // ---------------------------------------------------------------------------

  /** A rank for each position. */
  type Ranks = nat -> int

  /** The first position ranks lower, or as low and comes earlier. */
  ghost predicate Precedes(a: nat, b: nat, ranks: Ranks) { ranks(a) < ranks(b) || (ranks(a) == ranks(b) && a < b) }

  /** Positions by rank, ties by position. */
  ghost predicate InRankOrder(order: seq<nat>, ranks: Ranks) {
    forall i, j | 0 <= i < j < |order| :: Precedes(order[i], order[j], ranks)
  }

  function ByRank(ranks: Ranks): (nat, nat) -> bool { (a: nat, b: nat) => ranks(a) <= ranks(b) }

  function Positions(n: nat): (r: seq<nat>)
    ensures |r| == n && forall i | 0 <= i < n :: r[i] == i
  {
    seq(n, i => i)
  }

  lemma PrefixInOrder(s: seq<nat>, n: nat, ranks: Ranks)
    requires InRankOrder(s, ranks) && n <= |s|
    ensures InRankOrder(s[..n], ranks)
    ensures forall i | 0 <= i < n && n < |s| :: Precedes(s[i], s[n], ranks)
  {
  }

  lemma {:induction false} InsertKeepsOrder(s: seq<nat>, x: nat, ranks: Ranks)
    requires InRankOrder(s, ranks) && forall y | y in s :: y < x
    ensures InRankOrder(Insert<nat>(s, x, ByRank(ranks)), ranks)
    ensures forall y | y in Insert<nat>(s, x, ByRank(ranks)) :: y in s || y == x
  {
    if |s| > 0 {
      var init, last := s[..|s| - 1], s[|s| - 1];
      assert s == init + [last] && last in s && forall y | y in init :: y in s;
      PrefixInOrder(s, |s| - 1, ranks);
      if ranks(last) > ranks(x) {
        InsertKeepsOrder(init, x, ranks);
        var r := Insert<nat>(init, x, ByRank(ranks));
        forall i | 0 <= i < |r| ensures Precedes(r[i], last, ranks) {
          assert r[i] in r;
        }
      }
    }
  }

  lemma {:induction false} SortKeepsOrder(n: nat, ranks: Ranks)
    ensures InRankOrder(Sort<nat>(Positions(n), ByRank(ranks)), ranks)
    ensures forall y | y in Sort<nat>(Positions(n), ByRank(ranks)) :: y < n
  {
    if n > 0 {
      SortKeepsOrder(n - 1, ranks);
      assert Positions(n)[..n - 1] == Positions(n - 1);
      InsertKeepsOrder(Sort<nat>(Positions(n - 1), ByRank(ranks)), n - 1, ranks);
    }
  }

  /** The samples at these positions. */
  ghost predicate At(part: seq<Sample>, order: seq<nat>, samples: seq<Sample>) {
    |part| == |order| && forall i | 0 <= i < |order| :: order[i] < |samples| && part[i] == samples[order[i]]
  }

  function RanksOf(samples: seq<Sample>, seed: int, rank: RankFunction): Ranks {
    (p: nat) => if p < |samples| then rank(samples[p].requestId, seed, p) else 0
  }

  function RankedAt(samples: seq<Sample>, seed: int, rank: RankFunction): nat -> Ranked {
    (p: nat) => if p < |samples| then Ranked(samples[p], rank(samples[p].requestId, seed, p)) else Ranked(Sample("", [], false), 0)
  }

  lemma SortedPositions(samples: seq<Sample>, seed: int, rank: RankFunction)
    ensures var order := Sort<nat>(Positions(|samples|), ByRank(RanksOf(samples, seed, rank)));
      At(SamplesOf(Sort(RankAll(samples, seed, rank), RankLeq)), order, samples)
  {
    var f, ranks, n := RankedAt(samples, seed, rank), RanksOf(samples, seed, rank), |samples|;
    assert RankAll(samples, seed, rank) == ListOf<nat, Ranked>(Positions(n), f);
    SortMapped<nat, Ranked>(Positions(n), f, ByRank(ranks), RankLeq);
    SortKeepsOrder(n, ranks);
    var order := Sort<nat>(Positions(n), ByRank(ranks));
    assert forall i | 0 <= i < n :: order[i] in order;
  }

  lemma CutAndJoined(samples: seq<Sample>, fraction: real, seed: int, rank: RankFunction)
    requires |samples| > 0
    ensures var s := SplitLabeledSamples(samples, fraction, seed, rank);
      s.holdout + s.fit == SamplesOf(Sort(RankAll(samples, seed, rank), RankLeq)) && |s.holdout| == HoldoutCount(|samples|, fraction)
  {
    JoinsUp(SamplesOf(Sort(RankAll(samples, seed, rank), RankLeq)), HoldoutCount(|samples|, fraction));
  }

  lemma JoinsUp(s: seq<Sample>, n: nat)
    requires n <= |s|
    ensures s[..n] + s[n..] == s
  {
  }

  /**
   * The split orders the samples by rank, ties by position, and holds out the first of them, as many as
   * the nearest whole number to the share.
   */
  lemma SplitIsByRank(samples: seq<Sample>, fraction: real, seed: int, rank: RankFunction)
    requires |samples| > 0
    ensures var s := SplitLabeledSamples(samples, fraction, seed, rank);
      && ShareIs(|s.holdout|, |samples|, fraction)
      && exists order: seq<nat> :: InRankOrder(order, RanksOf(samples, seed, rank)) && At(s.holdout + s.fit, order, samples)
  {
    var s, order := SplitLabeledSamples(samples, fraction, seed, rank), Sort<nat>(Positions(|samples|), ByRank(RanksOf(samples, seed, rank)));
    HoldoutCountIsShare(|samples|, fraction);
    SortedPositions(samples, seed, rank);
    SortKeepsOrder(|samples|, RanksOf(samples, seed, rank));
    CutAndJoined(samples, fraction, seed, rank);
    assert At(s.holdout + s.fit, order, samples);
  }
}
