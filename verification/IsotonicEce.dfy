/** Expected calibration error over equal-width bins. */
module IsotonicEce {
  import opened IsotonicPooling
  import opened IsotonicFit

  /** The bin of a scaled score, the top one taking everything beyond. */
  function BinIndex(scaled: real, numBins: int): int {
    if scaled.Floor <= numBins - 1 then scaled.Floor else numBins - 1
  }

  /** The equal-width bin of a score, with 1.0 in the last bin. */
  function BinOf(score: real, numBins: int): int {
    BinIndex(Clamp01(score) * numBins as real, numBins)
  }

  lemma BinOfInRange(score: real, numBins: int)
    requires numBins >= 1
    ensures 0 <= BinOf(score, numBins) < numBins
  {
    assert Clamp01(score) * numBins as real >= 0.0;
  }

  ghost function BinError(numBins: int, b: int): (real, Label) -> real
    requires numBins >= 1
  {
    (x, y) => if BinOf(x, numBins) == b then x - y as real else 0.0
  }

  /** Predicted minus observed label mass inside one bin. */
  ghost function BinGap(ps: seq<ScoreLabelPair>, numBins: int, b: int): real
    requires numBins >= 1
  {
    Total(ps, BinError(numBins, b))
  }

  function Abs(x: real): (r: real)
    ensures r >= 0.0 && r >= x && r >= -x && (r == x || r == -x)
  {
    if x < 0.0 then -x else x
  }

  /** Sum of the absolute bin gaps over the bins `lo..hi`. */
  ghost function AbsGaps(ps: seq<ScoreLabelPair>, numBins: int, lo: int, hi: int): real
    requires numBins >= 1 && lo <= hi
    decreases hi - lo
  {
    if lo == hi then 0.0 else AbsGaps(ps, numBins, lo, hi - 1) + Abs(BinGap(ps, numBins, hi - 1))
  }

  ghost function SumGaps(ps: seq<ScoreLabelPair>, numBins: int, lo: int, hi: int): real
    requires numBins >= 1 && lo <= hi
    decreases hi - lo
  {
    if lo == hi then 0.0 else SumGaps(ps, numBins, lo, hi - 1) + BinGap(ps, numBins, hi - 1)
  }

  /** The metric's inputs need a bin only when there is something to score. */
  predicate Scorable(scores: seq<real>, labels: seq<bool>) {
    |scores| > 0 && |scores| == |labels|
  }

  /** Mean absolute gap between predicted and observed mass, bin by bin. */
  ghost function Ece(scores: seq<real>, labels: seq<bool>, numBins: int): real
    requires Scorable(scores, labels) ==> numBins >= 1
  {
    if !Scorable(scores, labels) then 0.0
    else AbsGaps(Pairs(scores, labels), numBins, 0, numBins) / |scores| as real
  }

  // ---------------------------------------------------------------------------
  // The counters
  // ---------------------------------------------------------------------------

  datatype Bin = Bin(count: nat, sumPred: real, sumLabel: nat)

  const EMPTY_BIN := Bin(0, 0.0, 0)

  /** The counters of bin `b` after the samples `ps`. */
  function BinAfter(ps: seq<ScoreLabelPair>, numBins: int, b: int): (bin: Bin)
    requires numBins >= 1
    ensures bin.count == 0 ==> bin == EMPTY_BIN
  {
    if |ps| == 0 then EMPTY_BIN
    else
      var bin, p := BinAfter(ps[..|ps| - 1], numBins, b), ps[|ps| - 1];
      if BinOf(p.score, numBins) == b then Bin(bin.count + 1, bin.sumPred + p.score, bin.sumLabel + p.outcome)
      else bin
  }

  lemma {:induction false} BinAfterGap(ps: seq<ScoreLabelPair>, numBins: int, b: int)
    requires numBins >= 1
    ensures BinAfter(ps, numBins, b).sumPred - BinAfter(ps, numBins, b).sumLabel as real == BinGap(ps, numBins, b)
  {
    if |ps| > 0 {
      BinAfterGap(ps[..|ps| - 1], numBins, b);
    }
  }

  function BinTerm(bin: Bin, n: real): real
    requires n > 0.0
  {
    if bin.count == 0 then 0.0
    else (bin.count as real / n) * Abs(bin.sumPred / bin.count as real - bin.sumLabel as real / bin.count as real)
  }

  lemma TermIsGap(bin: Bin, n: real)
    requires n > 0.0 && (bin.count == 0 ==> bin == EMPTY_BIN)
    ensures BinTerm(bin, n) == Abs(bin.sumPred - bin.sumLabel as real) / n
  {
    if bin.count > 0 {
      var c, d := bin.count as real, bin.sumPred - bin.sumLabel as real;
      assert bin.sumPred / c - bin.sumLabel as real / c == d / c;
    }
  }

  lemma GapsAdd(ps: seq<ScoreLabelPair>, numBins: int, b: nat, n: real)
    requires numBins >= 1 && n > 0.0
    ensures AbsGaps(ps, numBins, 0, b + 1) / n
         == AbsGaps(ps, numBins, 0, b) / n + BinTerm(BinAfter(ps, numBins, b), n)
  {
    BinAfterGap(ps, numBins, b);
    TermIsGap(BinAfter(ps, numBins, b), n);
    AddQuotients(AbsGaps(ps, numBins, 0, b), Abs(BinGap(ps, numBins, b)), n);
  }

  lemma AddQuotients(a: real, b: real, n: real)
    requires n > 0.0
    ensures (a + b) / n == a / n + b / n
  {
  }

  /** Counts, sums and weighted averages per bin, exactly as the script accumulates them. */
  method ComputeExpectedCalibrationError(scores: seq<real>, labels: seq<bool>, numBins: int) returns (ece: real)
    requires Scorable(scores, labels) ==> numBins >= 1
    ensures ece == Ece(scores, labels, numBins)
  {
    if |scores| == 0 || |scores| != |labels| {
      return 0.0;
    }
    var bins := new Bin[numBins](_ => EMPTY_BIN);
    FillBins(bins, scores, labels);
    ece := SumBins(bins, |scores|, Pairs(scores, labels));
  }

  /** The summation loop over the filled bins. */
  method SumBins(bins: array<Bin>, sampleCount: nat, ghost ps: seq<ScoreLabelPair>) returns (ece: real)
    requires bins.Length >= 1 && sampleCount > 0
    requires forall b | 0 <= b < bins.Length :: bins[b] == BinAfter(ps, bins.Length, b)
    ensures ece == AbsGaps(ps, bins.Length, 0, bins.Length) / sampleCount as real
  {
    var n := sampleCount as real;
    ece := 0.0;
    assert 0.0 / n == 0.0;
    var b := 0;
    while b < bins.Length
      invariant 0 <= b <= bins.Length
      invariant ece == AbsGaps(ps, bins.Length, 0, b) / n
    {
      var bin := bins[b];
      GapsAdd(ps, bins.Length, b, n);
      b := b + 1;
      if bin.count == 0 {
        continue;
      }
      var avgPred := bin.sumPred / bin.count as real;
      var avgLabel := bin.sumLabel as real / bin.count as real;
      ece := ece + (bin.count as real / n) * Abs(avgPred - avgLabel);
    }
  }

  lemma BinAfterSnoc(ps: seq<ScoreLabelPair>, i: nat, numBins: int, b: int)
    requires i < |ps| && numBins >= 1
    ensures var bin, p := BinAfter(ps[..i], numBins, b), ps[i];
      BinAfter(ps[..i + 1], numBins, b)
      == if BinOf(p.score, numBins) == b then Bin(bin.count + 1, bin.sumPred + p.score, bin.sumLabel + p.outcome)
         else bin
  {
    assert ps[..i + 1][..i] == ps[..i];
  }

  /** The counters after the first `i` samples. */
  ghost predicate Filled(bins: seq<Bin>, ps: seq<ScoreLabelPair>, i: nat) {
    i <= |ps| && |bins| >= 1 && forall b | 0 <= b < |bins| :: bins[b] == BinAfter(ps[..i], |bins|, b)
  }

  lemma FillOne(bins: seq<Bin>, ps: seq<ScoreLabelPair>, i: nat)
    requires i < |ps| && Filled(bins, ps, i) && 0 <= BinOf(ps[i].score, |bins|) < |bins|
    ensures var p, b := ps[i], BinOf(ps[i].score, |bins|);
      Filled(bins[b := Bin(bins[b].count + 1, bins[b].sumPred + p.score, bins[b].sumLabel + p.outcome)], ps, i + 1)
  {
    forall b | 0 <= b < |bins|
      ensures BinAfter(ps[..i + 1], |bins|, b)
           == if BinOf(ps[i].score, |bins|) == b
              then Bin(bins[b].count + 1, bins[b].sumPred + ps[i].score, bins[b].sumLabel + ps[i].outcome)
              else bins[b]
    {
      BinAfterSnoc(ps, i, |bins|, b);
    }
  }

  /** The accumulation loop over the samples. */
  method FillBins(bins: array<Bin>, scores: seq<real>, labels: seq<bool>)
    requires |scores| == |labels| && bins.Length >= 1
    requires forall b | 0 <= b < bins.Length :: bins[b] == EMPTY_BIN
    modifies bins
    ensures forall b | 0 <= b < bins.Length :: bins[b] == BinAfter(Pairs(scores, labels), bins.Length, b)
  {
    ghost var ps := Pairs(scores, labels);
    var i := 0;
    while i < |scores|
      invariant 0 <= i <= |scores|
      invariant Filled(bins[..], ps, i)
    {
      var score := Clamp01(scores[i]);
      var bin := BinOf(score, bins.Length);
      BinOfInRange(score, bins.Length);
      FillOne(bins[..], ps, i);
      bins[bin] := Bin(bins[bin].count + 1, bins[bin].sumPred + score,
                       bins[bin].sumLabel + if labels[i] then 1 else 0);
      i := i + 1;
    }
    assert ps[..|ps|] == ps;
    assert forall b | 0 <= b < bins.Length :: bins[b] == bins[..][b];
  }

  // ---------------------------------------------------------------------------
  // Bounds
  // ---------------------------------------------------------------------------

  lemma GapSnoc(ps: seq<ScoreLabelPair>, p: ScoreLabelPair, numBins: int, b: int)
    requires numBins >= 1
    ensures BinGap(ps + [p], numBins, b)
         == BinGap(ps, numBins, b) + if BinOf(p.score, numBins) == b then p.score - p.outcome as real else 0.0
  {
    TotalSnoc(ps, p, BinError(numBins, b));
  }

  lemma {:induction false} GapsSnoc(ps: seq<ScoreLabelPair>, p: ScoreLabelPair, numBins: int, lo: int, hi: int)
    requires numBins >= 1 && lo <= hi
    ensures AbsGaps(ps + [p], numBins, lo, hi)
         <= AbsGaps(ps, numBins, lo, hi)
            + if lo <= BinOf(p.score, numBins) < hi then Abs(p.score - p.outcome as real) else 0.0
    ensures SumGaps(ps + [p], numBins, lo, hi)
         == SumGaps(ps, numBins, lo, hi)
            + if lo <= BinOf(p.score, numBins) < hi then p.score - p.outcome as real else 0.0
    decreases hi - lo
  {
    if lo < hi {
      GapsSnoc(ps, p, numBins, lo, hi - 1);
      GapSnoc(ps, p, numBins, hi - 1);
    }
  }

  lemma {:induction false} GapsEmpty(numBins: int, lo: int, hi: int)
    requires numBins >= 1 && lo <= hi
    ensures AbsGaps([], numBins, lo, hi) == SumGaps([], numBins, lo, hi) == 0.0
    decreases hi - lo
  {
    if lo < hi {
      GapsEmpty(numBins, lo, hi - 1);
    }
  }

  ghost function SignedError(): (real, Label) -> real { (x, y) => x - y as real }

  lemma {:induction false} GapsOfAll(ps: seq<ScoreLabelPair>, numBins: int)
    requires numBins >= 1 && forall p | p in ps :: 0.0 <= p.score <= 1.0
    ensures AbsGaps(ps, numBins, 0, numBins) <= |ps| as real
    ensures SumGaps(ps, numBins, 0, numBins) == Total(ps, SignedError())
  {
    if |ps| == 0 {
      GapsEmpty(numBins, 0, numBins);
    } else {
      var init, p := ps[..|ps| - 1], ps[|ps| - 1];
      assert ps == init + [p];
      assert p in ps;
      GapsOfAll(init, numBins);
      GapsSnoc(init, p, numBins, 0, numBins);
      BinOfInRange(p.score, numBins);
      TotalSnoc(init, p, SignedError());
      assert Abs(p.score - p.outcome as real) <= 1.0;
    }
  }

  lemma {:induction false} SumWithinAbs(ps: seq<ScoreLabelPair>, numBins: int, lo: int, hi: int)
    requires numBins >= 1 && lo <= hi
    ensures Abs(SumGaps(ps, numBins, lo, hi)) <= AbsGaps(ps, numBins, lo, hi)
    ensures AbsGaps(ps, numBins, lo, hi) >= 0.0
    decreases hi - lo
  {
    if lo < hi {
      SumWithinAbs(ps, numBins, lo, hi - 1);
    }
  }

  /** Mean clamped score minus mean label. */
  ghost function MeanError(scores: seq<real>, labels: seq<bool>): real
    requires Scorable(scores, labels)
  {
    Total(Pairs(scores, labels), SignedError()) / |scores| as real
  }

  lemma MulOrder(a: real, b: real, k: real)
    requires k > 0.0
    ensures a <= b ==> a * k <= b * k
    ensures a < b ==> a * k < b * k
  {
  }

  /** A quotient is pinned by multiplying out. */
  lemma QuotientIs(a: real, q: real, n: real)
    requires n > 0.0 && a == q * n
    ensures a / n == q
  {
  }

  lemma QuotientMultiplies(a: real, n: real)
    requires n > 0.0
    ensures a / n * n == a
  {
  }

  lemma DivideBounds(a: real, b: real, n: real)
    requires n > 0.0 && a <= b
    ensures a / n <= b / n
  {
    var qa, qb := a / n, b / n;
    QuotientMultiplies(a, n);
    QuotientMultiplies(b, n);
    if qa > qb {
      MulOrder(qb, qa, n);
      assert false;
    }
  }

  /** The error lies in [0, 1] and is at least the overall bias. */
  lemma EceBounds(scores: seq<real>, labels: seq<bool>, numBins: int)
    requires Scorable(scores, labels) && numBins >= 1
    ensures 0.0 <= Ece(scores, labels, numBins) <= 1.0
    ensures Ece(scores, labels, numBins) >= Abs(MeanError(scores, labels))
  {
    var ps, n := Pairs(scores, labels), |scores| as real;
    GapsOfAll(ps, numBins);
    SumWithinAbs(ps, numBins, 0, numBins);
    var a, s := AbsGaps(ps, numBins, 0, numBins), SumGaps(ps, numBins, 0, numBins);
    QuotientBounds(a, s, n);
  }

  lemma QuotientBounds(a: real, s: real, n: real)
    requires n > 0.0 && 0.0 <= a <= n && Abs(s) <= a
    ensures 0.0 <= a / n <= 1.0 && a / n >= Abs(s / n)
  {
    UnitQuotient(a, n);
    DivideBounds(s, a, n);
    DivideBounds(-s, a, n);
    QuotientMultiplies(s, n);
    QuotientIs(-s, -(s / n), n);
  }

  lemma UnitQuotient(a: real, n: real)
    requires n > 0.0 && 0.0 <= a <= n
    ensures 0.0 <= a / n <= 1.0
  {
    DivideBounds(0.0, a, n);
    QuotientIs(0.0, 0.0, n);
    DivideBounds(a, n, n);
    QuotientIs(n, 1.0, n);
  }

  // ---------------------------------------------------------------------------
  // Finer bins
  // ---------------------------------------------------------------------------

  /** The floor of `x` is the only integer in (x - 1, x]. */
  lemma FloorBounds(x: real, lo: int, hi: int)
    requires lo as real <= x < hi as real
    ensures lo <= x.Floor < hi
  {
  }

  lemma ProductAsReal(g: int, m: int)
    ensures (g * m) as real == g as real * m as real
  {
  }

  lemma FloorScales(y: real, m: int)
    requires m >= 1
    ensures y.Floor * m <= (y * m as real).Floor < y.Floor * m + m
  {
    ScaledFloorBelow(y, m);
    ScaledFloorAbove(y, m);
    FloorBounds(y * m as real, y.Floor * m, y.Floor * m + m);
  }

  lemma ScaledFloorBelow(y: real, m: int)
    requires m >= 1
    ensures (y.Floor * m) as real <= y * m as real
  {
    ProductAsReal(y.Floor, m);
    MulOrder(y.Floor as real, y, m as real);
  }

  lemma ScaledFloorAbove(y: real, m: int)
    requires m >= 1
    ensures y * m as real < (y.Floor * m + m) as real
  {
    var g := y.Floor;
    ProductAsReal(g, m);
    MulOrder(y, g as real + 1.0, m as real);
    Distributes(g as real, m as real);
  }

  lemma Distributes(a: real, k: real)
    ensures (a + 1.0) * k == a * k + k
  {
  }

  ghost predicate Nests(fine: int, coarse: int, m: int) { coarse * m <= fine < coarse * m + m }

  /** Fine bin `b` and coarse bin `a` of one score: `b` is one of the `m` parts of `a`. */
  lemma FineIndexNests(scaled: real, finer: real, n: int, m: int, fine: int, a: int, b: int)
    requires n >= 1 && m >= 1 && fine == n * m && 0.0 <= scaled <= n as real && finer == scaled * m as real
    requires a == BinIndex(scaled, n) && b == BinIndex(finer, fine)
    ensures Nests(b, a, m)
  {
    FloorScales(scaled, m);
  }

  lemma ScaleTwice(x: real, n: int, m: int)
    ensures x * (n * m) as real == (x * n as real) * m as real
  {
    ProductAsReal(n, m);
  }

  lemma ScaledScore(x: real, n: int, m: int)
    requires 0.0 <= x <= 1.0 && n >= 1
    ensures 0.0 <= x * n as real <= n as real
    ensures x * (n * m) as real == (x * n as real) * m as real
  {
    ScaleTwice(x, n, m);
    MulOrder(0.0, x, n as real);
    MulOrder(x, 1.0, n as real);
  }

  lemma FineBinNests(score: real, n: int, m: int, fine: int, a: int, b: int)
    requires n >= 1 && m >= 1 && fine == n * m
    requires a == BinOf(score, n) && b == BinOf(score, fine)
    ensures Nests(b, a, m)
  {
    var x := Clamp01(score);
    ScaledScore(x, n, m);
    FineIndexNests(x * n as real, x * fine as real, n, m, fine, a, b);
  }

  /** A coarse bin's gap is the sum of the gaps of the fine bins inside it. */
  lemma {:induction false} GapSplits(ps: seq<ScoreLabelPair>, numBins: int, m: int, b: int)
    requires numBins >= 1 && m >= 1 && numBins * m >= 1
    ensures BinGap(ps, numBins, b) == SumGaps(ps, numBins * m, b * m, b * m + m)
  {
    if |ps| == 0 {
      GapsEmpty(numBins * m, b * m, b * m + m);
    } else {
      var init, p := ps[..|ps| - 1], ps[|ps| - 1];
      assert ps == init + [p];
      GapSplits(init, numBins, m, b);
      GapSnoc(init, p, numBins, b);
      GapsSnoc(init, p, numBins * m, b * m, b * m + m);
      FineBinNests(p.score, numBins, m, numBins * m, BinOf(p.score, numBins), BinOf(p.score, numBins * m));
      MultiplesApart(BinOf(p.score, numBins), b, m);
    }
  }

  lemma Multiples(a: int, d: int, m: int)
    requires d >= 1 && m >= 1
    ensures (a + d) * m >= a * m + m
  {
    assert (a + d) * m == a * m + d * m;
    assert d * m == (d - 1) * m + m;
    assert (d - 1) * m >= 0;
  }

  lemma MultiplesApart(a: int, b: int, m: int)
    requires m >= 1
    ensures a < b ==> a * m + m <= b * m
    ensures a > b ==> a * m >= b * m + m
  {
    if a < b {
      Multiples(a, b - a, m);
    } else if a > b {
      Multiples(b, a - b, m);
    }
  }

  lemma {:induction false} AbsGapsJoin(ps: seq<ScoreLabelPair>, numBins: int, lo: int, mid: int, hi: int)
    requires numBins >= 1 && lo <= mid <= hi
    ensures AbsGaps(ps, numBins, lo, hi) == AbsGaps(ps, numBins, lo, mid) + AbsGaps(ps, numBins, mid, hi)
    decreases hi - mid
  {
    if mid < hi {
      AbsGapsJoin(ps, numBins, lo, mid, hi - 1);
    }
  }

  lemma {:induction false} AbsGapsRefine(ps: seq<ScoreLabelPair>, numBins: int, m: int, k: nat)
    requires numBins >= 1 && m >= 1 && numBins * m >= 1 && k * m >= 0
    ensures AbsGaps(ps, numBins, 0, k) <= AbsGaps(ps, numBins * m, 0, k * m)
  {
    if k > 0 {
      Multiples(k - 1, 1, m);
      assert (k - 1) * m + m == k * m && (k - 1) * m >= 0;
      AbsGapsRefine(ps, numBins, m, k - 1);
      GapSplits(ps, numBins, m, k - 1);
      FineGapsCover(ps, numBins * m, (k - 1) * m, k * m, BinGap(ps, numBins, k - 1));
    }
  }

  /** Fine bins `lo` to `hi` that add up to `gap` carry at least its size. */
  lemma FineGapsCover(ps: seq<ScoreLabelPair>, fine: int, lo: int, hi: int, gap: real)
    requires fine >= 1 && 0 <= lo <= hi && gap == SumGaps(ps, fine, lo, hi)
    ensures AbsGaps(ps, fine, 0, lo) + Abs(gap) <= AbsGaps(ps, fine, 0, hi)
  {
    SumWithinAbs(ps, fine, lo, hi);
    AbsGapsJoin(ps, fine, 0, lo, hi);
  }

  /** Splitting every bin into `m` equal parts never lowers the error. */
  lemma EceRefines(scores: seq<real>, labels: seq<bool>, numBins: int, m: int)
    requires Scorable(scores, labels) && numBins >= 1 && m >= 1
    ensures numBins * m >= 1
    ensures Ece(scores, labels, numBins) <= Ece(scores, labels, numBins * m)
  {
    Multiples(0, numBins, m);
    var ps := Pairs(scores, labels);
    AbsGapsRefine(ps, numBins, m, numBins);
    DivideBounds(AbsGaps(ps, numBins, 0, numBins), AbsGaps(ps, numBins * m, 0, numBins * m), |scores| as real);
  }
}
