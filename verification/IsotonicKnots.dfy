/** Knot tables: emission from the block stack, normalisation, validation and lookup. */
module IsotonicKnots {
  import opened IsotonicPooling
  import opened IsotonicPav
  import opened IsotonicOptimality

  datatype Knots = Knots(xs: seq<real>, ys: seq<real>)

  const IDENTITY_KNOTS := Knots([0.0, 1.0], [0.0, 1.0])

  // ---------------------------------------------------------------------------
  // Emission
  // ---------------------------------------------------------------------------

  predicate Collides(k: Knots, x: real) {
    |k.xs| > 0 && k.xs[|k.xs| - 1] == Clamp01(x)
  }

  /** One emitted knot; a repeated x averages into the last y. */
  function PushKnot(k: Knots, x: real, y: real): (r: Knots)
    requires |k.xs| == |k.ys|
    ensures |r.xs| == |r.ys| > 0
  {
    var last := |k.ys| - 1;
    if Collides(k, x) then Knots(k.xs, k.ys[last := Clamp01((k.ys[last] + Clamp01(y)) / 2.0)])
    else Knots(k.xs + [Clamp01(x)], k.ys + [Clamp01(y)])
  }

  function BlockAverage(b: PavBlock): real
    requires b.weight > 0
  {
    Clamp01(b.sum as real / b.weight as real)
  }

  function EmitBlock(k: Knots, b: PavBlock): (r: Knots)
    requires |k.xs| == |k.ys| && b.weight > 0
    ensures |r.xs| == |r.ys| > 0
  {
    var first := PushKnot(k, b.minScore, BlockAverage(b));
    if b.maxScore != b.minScore then PushKnot(first, b.maxScore, BlockAverage(b)) else first
  }

  function EmitBlocks(bs: seq<PavBlock>): (k: Knots)
    requires forall b | b in bs :: b.weight > 0
    ensures |k.xs| == |k.ys|
    ensures |bs| > 0 ==> |k.xs| > 0
  {
    if |bs| == 0 then Knots([], []) else EmitBlock(EmitBlocks(bs[..|bs| - 1]), bs[|bs| - 1])
  }

  /** Each y lifted to the greatest y before it. */
  function RunningMax(ys: seq<real>): (r: seq<real>)
    ensures |r| == |ys|
  {
    if |ys| <= 1 then ys
    else
      var init := RunningMax(ys[..|ys| - 1]);
      init + [Max(init[|init| - 1], ys[|ys| - 1])]
  }

  function PadLeft(k: Knots): (r: Knots)
    requires |k.xs| == |k.ys| > 0
    ensures |r.xs| == |r.ys| > 0
  {
    if k.xs[0] > 0.0 then Knots([0.0] + k.xs, [k.ys[0]] + k.ys) else k
  }

  function PadRight(k: Knots): (r: Knots)
    requires |k.xs| == |k.ys| > 0
    ensures |r.xs| == |r.ys| > 0
  {
    if k.xs[|k.xs| - 1] < 1.0 then Knots(k.xs + [1.0], k.ys + [k.ys[|k.ys| - 1]]) else k
  }

  function NormalizeKnots(k: Knots): (r: Knots)
    requires |k.xs| == |k.ys|
  {
    if |k.xs| == 0 then IDENTITY_KNOTS
    else
      var padded := PadRight(PadLeft(k));
      Knots(padded.xs, RunningMax(padded.ys))
  }

  /** The two parallel arrays the fit edits in place. */
  class KnotTable {
    var xKnots: seq<real>
    var yKnots: seq<real>

    function Table(): Knots
      reads this
    {
      Knots(xKnots, yKnots)
    }

    constructor ()
      ensures Table() == Knots([], [])
    {
      xKnots, yKnots := [], [];
    }

    /** `pushKnot`: append, or average into the last knot on a repeated x. */
    method Push(x: real, y: real)
      requires |xKnots| == |yKnots|
      modifies this
      ensures Table() == PushKnot(old(Table()), x, y)
    {
      var clampedX, clampedY := Clamp01(x), Clamp01(y);
      var lastIndex := |xKnots| - 1;
      if lastIndex >= 0 && xKnots[lastIndex] == clampedX {
        yKnots := yKnots[lastIndex := Clamp01((yKnots[lastIndex] + clampedY) / 2.0)];
        return;
      }
      xKnots := xKnots + [clampedX];
      yKnots := yKnots + [clampedY];
    }

    /** `normalizeKnots`: pad to 0 and 1, then lift any y below its predecessor. */
    method Normalize() returns (k: Knots)
      requires |xKnots| == |yKnots|
      modifies this
      ensures k == NormalizeKnots(old(Table()))
      ensures old(|xKnots|) > 0 ==> Table() == k
      ensures old(|xKnots|) == 0 ==> Table() == old(Table())
    {
      if |xKnots| == 0 {
        return IDENTITY_KNOTS;
      }
      if xKnots[0] > 0.0 {
        xKnots := [0.0] + xKnots;
        yKnots := [yKnots[0]] + yKnots;
      }
      var lastIndex := |xKnots| - 1;
      if xKnots[lastIndex] < 1.0 {
        xKnots := xKnots + [1.0];
        yKnots := yKnots + [yKnots[lastIndex]];
      }
      assert Table() == PadRight(PadLeft(old(Table())));
      LiftDecreases();
      return Table();
    }

    /** The repair loop of `normalizeKnots`. */
    method LiftDecreases()
      modifies this`yKnots
      ensures yKnots == RunningMax(old(yKnots))
    {
      ghost var before := yKnots;
      var i := 1;
      while i < |yKnots|
        invariant |yKnots| == |before| && (1 <= i <= |before| || |before| == 0)
        invariant |before| > 0 ==> yKnots == RunningMax(before[..i]) + before[i..]
      {
        LiftStep(before, i, yKnots);
        if yKnots[i] < yKnots[i - 1] {
          yKnots := yKnots[i := yKnots[i - 1]];
        }
        i := i + 1;
      }
      if |before| > 0 {
        assert before[..i] == before && before[i..] == [];
      }
    }
  }

  /** One pass of the repair loop, on the values. */
  lemma LiftStep(before: seq<real>, i: nat, ys: seq<real>)
    requires 0 < i < |before| && ys == RunningMax(before[..i]) + before[i..]
    ensures (if ys[i] < ys[i - 1] then ys[i := ys[i - 1]] else ys) == RunningMax(before[..i + 1]) + before[i + 1..]
  {
    RunningMaxSnoc(before, i);
    assert before[i..] == [before[i]] + before[i + 1..];
  }

  lemma RunningMaxSnoc(ys: seq<real>, i: nat)
    requires 0 < i < |ys|
    ensures RunningMax(ys[..i + 1]) == RunningMax(ys[..i]) + [Max(RunningMax(ys[..i])[i - 1], ys[i])]
  {
    assert ys[..i + 1][..i] == ys[..i];
  }

  lemma EmitBlocksSnoc(bs: seq<PavBlock>, i: nat)
    requires (forall b | b in bs :: b.weight > 0) && i < |bs|
    ensures EmitBlocks(bs[..i + 1]) == EmitBlock(EmitBlocks(bs[..i]), bs[i])
  {
    assert bs[..i + 1][..i] == bs[..i];
  }

  /** Knot emission over the finished stack, then normalisation. */
  method BuildKnots(blocks: seq<PavBlock>) returns (k: Knots)
    requires forall b | b in blocks :: b.weight > 0
    ensures k == NormalizeKnots(EmitBlocks(blocks))
  {
    var table := new KnotTable();
    var i := 0;
    while i < |blocks|
      invariant 0 <= i <= |blocks|
      invariant table.Table() == EmitBlocks(blocks[..i])
    {
      var block := blocks[i];
      EmitBlocksSnoc(blocks, i);
      var avg := Clamp01(block.sum as real / block.weight as real);
      table.Push(block.minScore, avg);
      if block.maxScore != block.minScore {
        table.Push(block.maxScore, avg);
      }
      i := i + 1;
    }
    assert blocks[..|blocks|] == blocks;
    k := table.Normalize();
  }

  // ---------------------------------------------------------------------------
  // Lookup
  // ---------------------------------------------------------------------------

  /** The probe of the search: above `low`, at most `high`. */
  function Middle(low: nat, high: nat): (m: nat)
    requires low < high
    ensures low < m <= high
  {
    (low + high + 1) / 2
  }

  function BinarySearch(xs: seq<real>, score: real, low: nat, high: nat): (r: nat)
    requires low <= high < |xs|
    ensures low <= r <= high
    decreases high - low
  {
    if low == high then low
    else
      var mid := Middle(low, high);
      if xs[mid] <= score then BinarySearch(xs, score, mid, high) else BinarySearch(xs, score, low, mid - 1)
  }

  function Lookup(rawScore: real, k: Knots): real {
    if |k.xs| == 0 || |k.ys| == 0 || |k.xs| != |k.ys| then Clamp01(rawScore)
    else
      var score, last := Clamp01(rawScore), |k.xs| - 1;
      if score <= k.xs[0] then Clamp01(k.ys[0])
      else if score >= k.xs[last] then Clamp01(k.ys[last])
      else Clamp01(k.ys[BinarySearch(k.xs, score, 0, last)])
  }

  /** The serve-time table lookup; any table at all is safe to search. */
  method ApplyIsotonicLookup(rawScore: real, xKnots: seq<real>, yKnots: seq<real>) returns (calibrated: real)
    ensures calibrated == Lookup(rawScore, Knots(xKnots, yKnots))
  {
    if |xKnots| == 0 || |yKnots| == 0 || |xKnots| != |yKnots| {
      return Clamp01(rawScore);
    }
    var score := Clamp01(rawScore);
    if score <= xKnots[0] {
      return Clamp01(yKnots[0]);
    }
    var lastIndex := |xKnots| - 1;
    if score >= xKnots[lastIndex] {
      return Clamp01(yKnots[lastIndex]);
    }
    var low, high := 0, lastIndex;
    while low < high
      invariant 0 <= low <= high <= lastIndex
      invariant BinarySearch(xKnots, score, low, high) == BinarySearch(xKnots, score, 0, lastIndex)
      decreases high - low
    {
      var mid := (low + high + 1) / 2;
      if xKnots[mid] <= score {
        low := mid;
      } else {
        high := mid - 1;
      }
    }
    return Clamp01(yKnots[low]);
  }

  // ---------------------------------------------------------------------------
  // Validation
  // ---------------------------------------------------------------------------

  datatype KnotError =
    | UnsupportedVersion | EmptyKnots | LengthMismatch
    | XDecreases(at: nat) | YDecreases(at: nat) | XOutOfRange | YOutOfRange

  datatype Verdict = Accepted | Rejected(error: KnotError)

  ghost predicate InUnit(s: seq<real>) { forall x | x in s :: 0.0 <= x <= 1.0 }

  /** What the validator accepts: both tables ascend (ties allowed) and lie in [0, 1]. */
  ghost predicate ValidKnots(k: Knots) {
    |k.xs| == |k.ys| > 0 && NonDecreasing(k.xs) && NonDecreasing(k.ys) && InUnit(k.xs) && InUnit(k.ys)
  }

  const ARTIFACT_VERSION := 1

  method ValidateKnots(version: int, k: Knots) returns (v: Verdict)
    ensures v.Accepted? <==> version == ARTIFACT_VERSION && ValidKnots(k)
  {
    if version != ARTIFACT_VERSION {
      return Rejected(UnsupportedVersion);
    }
    if |k.xs| == 0 || |k.ys| == 0 {
      return Rejected(EmptyKnots);
    }
    if |k.xs| != |k.ys| {
      return Rejected(LengthMismatch);
    }
    var i := 1;
    while i < |k.xs|
      invariant 1 <= i <= |k.xs|
      invariant NonDecreasing(k.xs[..i]) && NonDecreasing(k.ys[..i])
    {
      if k.xs[i] < k.xs[i - 1] {
        return Rejected(XDecreases(i));
      }
      if k.ys[i] < k.ys[i - 1] {
        return Rejected(YDecreases(i));
      }
      AscendsByOne(k.xs, i);
      AscendsByOne(k.ys, i);
      i := i + 1;
    }
    assert k.xs[..|k.xs|] == k.xs && k.ys[..|k.ys|] == k.ys;
    i := 0;
    while i < |k.xs|
      invariant 0 <= i <= |k.xs| && InUnit(k.xs[..i])
    {
      if k.xs[i] < 0.0 || k.xs[i] > 1.0 {
        assert k.xs[i] in k.xs;
        return Rejected(XOutOfRange);
      }
      assert k.xs[..i + 1] == k.xs[..i] + [k.xs[i]];
      i := i + 1;
    }
    i := 0;
    while i < |k.ys|
      invariant 0 <= i <= |k.ys| && InUnit(k.ys[..i])
    {
      if k.ys[i] < 0.0 || k.ys[i] > 1.0 {
        assert k.ys[i] in k.ys;
        return Rejected(YOutOfRange);
      }
      assert k.ys[..i + 1] == k.ys[..i] + [k.ys[i]];
      i := i + 1;
    }
    return Accepted;
  }

  lemma AscendsByOne(s: seq<real>, i: nat)
    requires 0 < i < |s| && NonDecreasing(s[..i]) && s[i - 1] <= s[i]
    ensures NonDecreasing(s[..i + 1])
  {
    var t, t' := s[..i], s[..i + 1];
    forall a, b | 0 <= a < b < |t'| ensures t'[a] <= t'[b] {
      if b < i {
        assert t[a] <= t[b];
      } else if a < i - 1 {
        assert t[a] <= t[i - 1];
      }
    }
  }
}
