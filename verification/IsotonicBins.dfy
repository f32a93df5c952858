/** The calibration error over the samples themselves: equal-width bins, the last one closed. */
module IsotonicBins {
  import opened IsotonicPooling
  import opened IsotonicFit
  import opened IsotonicEce

  /** The score lies in the b-th of n equal parts of [0, 1], the last of which has both its ends. */
  ghost predicate InBin(s: real, n: int, b: int)
    requires n >= 1
  {
    b as real / n as real <= s < (b + 1) as real / n as real || (b == n - 1 && s == 1.0)
  }

  lemma ScaledSide(s: real, b: int, n: int)
    requires n >= 1
    ensures b as real / n as real <= s <==> b as real <= s * n as real
  {
    QuotientMultiplies(b as real, n as real);
    MulOrder(b as real / n as real, s, n as real);
    MulOrder(s, b as real / n as real, n as real);
  }

  lemma ScaledTop(s: real, n: int)
    requires n >= 1 && 0.0 <= s <= 1.0
    ensures 0.0 <= s * n as real <= n as real
    ensures s * n as real == n as real <==> s == 1.0
  {
    MulOrder(0.0, s, n as real);
    MulOrder(s, 1.0, n as real);
  }

  lemma FloorIs(x: real, b: int)
    ensures x.Floor == b <==> b as real <= x < (b + 1) as real
  {
  }

  /** A score's bin is the one of n equal parts it lies in; exactly 1 falls in the last. */
  lemma BinsAreEqualWidth(score: real, n: int, b: int)
    requires n >= 1 && 0 <= b < n
    ensures var s := Clamp01(score);
      && (BinOf(score, n) == b <==> b as real <= s * n as real < (b + 1) as real || (b == n - 1 && s == 1.0))
      && (BinOf(score, n) == b <==> InBin(s, n, b))
  {
    var s := Clamp01(score);
    ScaledTop(s, n);
    FloorIs(s * n as real, b);
    FloorIs(s * n as real, n);
    ScaledSide(s, b, n);
    ScaledSide(s, b + 1, n);
  }

  // ---------------------------------------------------------------------------
  // The metric
  // ---------------------------------------------------------------------------

  /** Clamped scores minus successes over the samples of the bin, among the first m. */
  ghost function BinExcess(scores: seq<real>, labels: seq<bool>, n: int, b: int, m: nat): real
    requires n >= 1 && m <= |scores| == |labels|
  {
    if m == 0 then 0.0
    else
      var s := Clamp01(scores[m - 1]);
      BinExcess(scores, labels, n, b, m - 1) + if InBin(s, n, b) then s - (if labels[m - 1] then 1.0 else 0.0) else 0.0
  }

  ghost function AbsExcess(scores: seq<real>, labels: seq<bool>, n: int, b: nat): real
    requires n >= 1 && b <= n && |scores| == |labels|
  {
    if b == 0 then 0.0
    else
      var excess := BinExcess(scores, labels, n, b - 1, |scores|);
      AbsExcess(scores, labels, n, b - 1) + if excess < 0.0 then -excess else excess
  }

  lemma {:induction false} GapIsExcess(scores: seq<real>, labels: seq<bool>, n: int, b: int, m: nat)
    requires n >= 1 && 0 <= b < n && m <= |scores| == |labels|
    ensures BinGap(Pairs(scores, labels)[..m], n, b) == BinExcess(scores, labels, n, b, m)
  {
    if m > 0 {
      var ps := Pairs(scores, labels);
      GapIsExcess(scores, labels, n, b, m - 1);
      assert ps[..m] == ps[..m - 1] + [ps[m - 1]];
      GapSnoc(ps[..m - 1], ps[m - 1], n, b);
      BinsAreEqualWidth(ps[m - 1].score, n, b);
    }
  }

  lemma {:induction false} GapsAreExcess(scores: seq<real>, labels: seq<bool>, n: int, b: nat)
    requires n >= 1 && b <= n && |scores| == |labels|
    ensures AbsGaps(Pairs(scores, labels), n, 0, b) == AbsExcess(scores, labels, n, b)
  {
    if b > 0 {
      var ps := Pairs(scores, labels);
      GapsAreExcess(scores, labels, n, b - 1);
      GapIsExcess(scores, labels, n, b - 1, |scores|);
      assert ps[..|scores|] == ps;
    }
  }

  /** The error is the absolute excess of score over successes, bin by bin, per sample. */
  lemma EceIsBinned(scores: seq<real>, labels: seq<bool>, n: int)
    requires |scores| == |labels| > 0 && n >= 1
    ensures Ece(scores, labels, n) == AbsExcess(scores, labels, n, n) / |scores| as real
  {
    GapsAreExcess(scores, labels, n, n);
  }
}
