/** The pool-adjacent-violators stack: blocks are merged from the right until their means ascend. */
module IsotonicPav {
  import opened IsotonicPooling

  datatype PavBlock = PavBlock(weight: nat, sum: nat, minScore: real, maxScore: real)

  // ---------------------------------------------------------------------------
  // Groups: the pooled pairs behind each block of the stack
  // ---------------------------------------------------------------------------

  function SumOf(q: seq<WeightedScorePair>): nat {
    if |q| == 0 then 0 else SumOf(q[..|q| - 1]) + q[|q| - 1].sum
  }

  function WeightOf(q: seq<WeightedScorePair>): nat {
    if |q| == 0 then 0 else WeightOf(q[..|q| - 1]) + q[|q| - 1].weight
  }

  lemma {:induction false} SumsConcat(a: seq<WeightedScorePair>, b: seq<WeightedScorePair>)
    ensures SumOf(a + b) == SumOf(a) + SumOf(b)
    ensures WeightOf(a + b) == WeightOf(a) + WeightOf(b)
  {
    if |b| == 0 {
      assert a + b == a;
    } else {
      assert (a + b)[..|a + b| - 1] == a + b[..|b| - 1];
      SumsConcat(a, b[..|b| - 1]);
    }
  }

  lemma {:induction false} SumsBounded(q: seq<WeightedScorePair>)
    requires forall p | p in q :: p.sum <= p.weight && 1 <= p.weight
    ensures SumOf(q) <= WeightOf(q) && |q| <= WeightOf(q)
  {
    if |q| > 0 {
      SumsBounded(q[..|q| - 1]);
    }
  }

  /** The pooled pairs one block stands for. */
  type Group = seq<WeightedScorePair>

  predicate Proper(g: Group) { |g| > 0 && WeightOf(g) > 0 }

  function Mean(g: Group): real {
    if WeightOf(g) == 0 then 0.0 else SumOf(g) as real / WeightOf(g) as real
  }

  /** What a label sum exceeds the level `mu` by, over the weight. */
  ghost function Above(sum: int, weight: int, mu: real): real { sum as real - mu * weight as real }

  /** Label mass of `q` above the level `mu`. */
  ghost function Excess(q: seq<WeightedScorePair>, mu: real): real { Above(SumOf(q), WeightOf(q), mu) }

  lemma Spread(mu: real, a: int, b: int)
    ensures mu * (a + b) as real == mu * a as real + mu * b as real
  {
  }

  lemma AddLevels(mu: real, s1: int, w1: int, s2: int, w2: int)
    ensures Above(s1 + s2, w1 + w2, mu) == Above(s1, w1, mu) + Above(s2, w2, mu)
  {
    Spread(mu, w1, w2);
  }

  lemma ExcessConcat(a: seq<WeightedScorePair>, b: seq<WeightedScorePair>, mu: real)
    ensures Excess(a + b, mu) == Excess(a, mu) + Excess(b, mu)
  {
    SumsConcat(a, b);
    AddLevels(mu, SumOf(a), WeightOf(a), SumOf(b), WeightOf(b));
  }

  lemma ExcessAtMean(g: Group)
    requires Proper(g)
    ensures Excess(g, Mean(g)) == 0.0
  {
  }

  lemma ExcessFalls(q: seq<WeightedScorePair>, lo: real, hi: real)
    requires lo <= hi
    ensures Excess(q, hi) <= Excess(q, lo)
  {
    var w := WeightOf(q) as real;
    assert lo * w <= hi * w;
  }

  lemma SignOfProduct(d: real, w: real)
    requires w > 0.0
    ensures d * w >= 0.0 <==> d >= 0.0
    ensures d * w <= 0.0 <==> d <= 0.0
  {
  }

  lemma LevelOfQuotient(s: real, w: real, mu: real)
    requires w > 0.0
    ensures s / w >= mu <==> s - mu * w >= 0.0
    ensures s / w <= mu <==> s - mu * w <= 0.0
  {
    var d := s / w - mu;
    assert d * w == s - mu * w;
    SignOfProduct(d, w);
  }

  lemma MeanVersusLevel(g: Group, mu: real)
    requires Proper(g)
    ensures Mean(g) >= mu <==> Excess(g, mu) >= 0.0
    ensures Mean(g) <= mu <==> Excess(g, mu) <= 0.0
  {
    LevelOfQuotient(SumOf(g) as real, WeightOf(g) as real, mu);
  }

  function Concat(gs: seq<Group>): seq<WeightedScorePair> {
    if |gs| == 0 then [] else Concat(gs[..|gs| - 1]) + gs[|gs| - 1]
  }

  predicate AllProper(gs: seq<Group>) { forall i | 0 <= i < |gs| :: Proper(gs[i]) }

  predicate Descends(gs: seq<Group>) {
    |gs| >= 2 && Mean(gs[|gs| - 2]) > Mean(gs[|gs| - 1])
  }

  function MergeLast(gs: seq<Group>): (r: seq<Group>)
    requires |gs| >= 2
    ensures |r| == |gs| - 1
    ensures r[..|r| - 1] == gs[..|gs| - 2]
    ensures r[|r| - 1] == gs[|gs| - 2] + gs[|gs| - 1]
    ensures Concat(r) == Concat(gs)
    ensures AllProper(gs) ==> AllProper(r)
  {
    SumsConcat(gs[|gs| - 2], gs[|gs| - 1]);
    var merged := gs[|gs| - 2] + gs[|gs| - 1];
    assert (gs[..|gs| - 2] + [merged])[..|gs| - 2] == gs[..|gs| - 2];
    assert gs[..|gs| - 1][..|gs| - 2] == gs[..|gs| - 2];
    gs[..|gs| - 2] + [merged]
  }

  /** The merge loop: the last two groups merge while their means strictly descend. */
  function Settle(gs: seq<Group>): (r: seq<Group>)
    ensures Concat(r) == Concat(gs)
    ensures |gs| > 0 ==> |r| > 0
    ensures AllProper(gs) ==> AllProper(r)
    decreases |gs|
  {
    if Descends(gs) then Settle(MergeLast(gs)) else gs
  }

  predicate AllWeighted(q: seq<WeightedScorePair>) { forall i | 0 <= i < |q| :: q[i].weight >= 1 }

  /** The groups after every pooled pair has been pushed and settled. */
  function PavGroups(q: seq<WeightedScorePair>): (gs: seq<Group>)
    ensures Concat(gs) == q
    ensures AllWeighted(q) ==> AllProper(gs)
  {
    if |q| == 0 then []
    else
      var gs := PavGroups(q[..|q| - 1]);
      assert (gs + [[q[|q| - 1]]])[..|gs|] == gs;
      assert q[|q| - 1].weight >= 1 ==> Proper([q[|q| - 1]]) by {
        SingleSums(q[|q| - 1]);
      }
      Settle(gs + [[q[|q| - 1]]])
  }

  lemma SingleSums(p: WeightedScorePair)
    ensures SumOf([p]) == p.sum && WeightOf([p]) == p.weight
  {
    assert [p][..0] == [];
  }

  // ---------------------------------------------------------------------------
  // The block stack
  // ---------------------------------------------------------------------------

  function BlockOf(g: Group): PavBlock
    requires Proper(g)
  {
    PavBlock(WeightOf(g), SumOf(g), g[0].score, g[|g| - 1].score)
  }

  function BlocksOf(gs: seq<Group>): (bs: seq<PavBlock>)
    requires AllProper(gs)
    ensures |bs| == |gs|
    ensures forall i | 0 <= i < |gs| :: bs[i] == BlockOf(gs[i])
    ensures forall b | b in bs :: b.weight > 0
  {
    if |gs| == 0 then [] else BlocksOf(gs[..|gs| - 1]) + [BlockOf(gs[|gs| - 1])]
  }

  lemma BlocksSnoc(gs: seq<Group>, g: Group)
    requires AllProper(gs) && Proper(g)
    ensures AllProper(gs + [g])
    ensures BlocksOf(gs + [g]) == BlocksOf(gs) + [BlockOf(g)]
  {
    assert (gs + [g])[..|gs|] == gs;
  }

  lemma SingleBlock(p: WeightedScorePair)
    requires p.weight >= 1
    ensures Proper([p]) && BlockOf([p]) == PavBlock(p.weight, p.sum, p.score, p.score)
  {
    SingleSums(p);
  }

  function MergedBlock(previous: PavBlock, current: PavBlock): PavBlock {
    PavBlock(previous.weight + current.weight, previous.sum + current.sum, previous.minScore, current.maxScore)
  }

  lemma MergedGroupBlock(a: Group, b: Group)
    requires Proper(a) && Proper(b)
    ensures Proper(a + b) && BlockOf(a + b) == MergedBlock(BlockOf(a), BlockOf(b))
  {
    SumsConcat(a, b);
  }

  lemma MergedTail(init: seq<Group>, a: Group, b: Group)
    requires AllProper(init) && Proper(a) && Proper(b)
    ensures AllProper(init + [a]) && AllProper(init + [a] + [b]) && AllProper(init + [a + b])
    ensures BlocksOf(init + [a] + [b]) == BlocksOf(init) + [BlockOf(a)] + [BlockOf(b)]
    ensures BlocksOf(init + [a + b]) == BlocksOf(init) + [MergedBlock(BlockOf(a), BlockOf(b))]
  {
    MergedGroupBlock(a, b);
    BlocksSnoc(init, a);
    BlocksSnoc(init + [a], b);
    BlocksSnoc(init, a + b);
  }

  lemma BlocksOfMerged(gs: seq<Group>)
    requires |gs| >= 2 && AllProper(gs)
    ensures var bs := BlocksOf(gs);
      BlocksOf(MergeLast(gs)) == bs[..|bs| - 2] + [MergedBlock(bs[|bs| - 2], bs[|bs| - 1])]
  {
    var n := |gs|;
    var init, a, b := gs[..n - 2], gs[n - 2], gs[n - 1];
    assert gs == init + [a] + [b];
    MergedTail(init, a, b);
    LastTwo(BlocksOf(init), BlockOf(a), BlockOf(b));
    MergeLastIs(gs);
  }

  lemma LastTwo(bs: seq<PavBlock>, a: PavBlock, b: PavBlock)
    ensures var all := bs + [a] + [b];
      all[..|all| - 2] == bs && all[|all| - 2] == a && all[|all| - 1] == b
  {
  }

  lemma MergeLastIs(gs: seq<Group>)
    requires |gs| >= 2
    ensures MergeLast(gs) == gs[..|gs| - 2] + [gs[|gs| - 2] + gs[|gs| - 1]]
  {
  }

  /** The inner loop: merge backwards while the last two block averages descend. */
  method MergeViolators(stack: seq<PavBlock>, ghost groups: seq<Group>) returns (blocks: seq<PavBlock>)
    requires AllProper(groups) && stack == BlocksOf(groups)
    ensures blocks == BlocksOf(Settle(groups))
  {
    blocks := stack;
    ghost var gs := groups;
    while |blocks| >= 2
      invariant AllProper(gs) && blocks == BlocksOf(gs)
      invariant Settle(gs) == Settle(groups)
      decreases |blocks|
    {
      var previous, current := blocks[|blocks| - 2], blocks[|blocks| - 1];
      var previousAvg := previous.sum as real / previous.weight as real;
      var currentAvg := current.sum as real / current.weight as real;
      assert previousAvg == Mean(gs[|gs| - 2]) && currentAvg == Mean(gs[|gs| - 1]);
      if previousAvg <= currentAvg {
        break;
      }
      BlocksOfMerged(gs);
      gs := MergeLast(gs);
      blocks := blocks[|blocks| - 2 := MergedBlock(previous, current)];
      blocks := blocks[..|blocks| - 1];
    }
  }

  lemma WellPooledPrefix(q: seq<WeightedScorePair>, i: nat)
    requires WellPooled(q) && i <= |q|
    ensures WellPooled(q[..i])
  {
  }

  lemma PavGroupsSnoc(q: seq<WeightedScorePair>, i: nat)
    requires i < |q|
    ensures PavGroups(q[..i + 1]) == Settle(PavGroups(q[..i]) + [[q[i]]])
  {
    assert q[..i + 1][..i] == q[..i];
    LastPushed(q[..i + 1]);
  }

  lemma LastPushed(q: seq<WeightedScorePair>)
    requires |q| > 0
    ensures PavGroups(q) == Settle(PavGroups(q[..|q| - 1]) + [[q[|q| - 1]]])
  {
  }

  lemma PushPair(q: seq<WeightedScorePair>, i: nat)
    requires AllWeighted(q) && i < |q|
    ensures AllWeighted(q[..i]) && AllWeighted(q[..i + 1])
    ensures AllProper(PavGroups(q[..i])) && AllProper(PavGroups(q[..i]) + [[q[i]]])
    ensures BlocksOf(PavGroups(q[..i]) + [[q[i]]])
         == BlocksOf(PavGroups(q[..i])) + [PavBlock(q[i].weight, q[i].sum, q[i].score, q[i].score)]
    ensures PavGroups(q[..i + 1]) == Settle(PavGroups(q[..i]) + [[q[i]]])
  {
    PavGroupsSnoc(q, i);
    SingleBlock(q[i]);
    BlocksSnoc(PavGroups(q[..i]), [q[i]]);
  }

  /** The block stack after the first i pooled pairs. */
  ghost function StackAt(q: seq<WeightedScorePair>, i: nat): seq<PavBlock>
    requires AllWeighted(q) && i <= |q|
  {
    BlocksOf(PavGroups(q[..i]))
  }

  /** The outer loop's body: push the pair's block, then merge the violators. */
  method PushAndMerge(stack: seq<PavBlock>, pooledPairs: seq<WeightedScorePair>, i: nat) returns (blocks: seq<PavBlock>)
    requires AllWeighted(pooledPairs) && i < |pooledPairs| && stack == StackAt(pooledPairs, i)
    ensures blocks == StackAt(pooledPairs, i + 1)
  {
    var pair := pooledPairs[i];
    PushPair(pooledPairs, i);
    blocks := stack + [PavBlock(pair.weight, pair.sum, pair.score, pair.score)];
    blocks := MergeViolators(blocks, PavGroups(pooledPairs[..i]) + [[pair]]);
  }

  /** The stack loop over pooled pairs. */
  method PoolAdjacentViolators(pooledPairs: seq<WeightedScorePair>) returns (blocks: seq<PavBlock>)
    requires AllWeighted(pooledPairs)
    ensures blocks == StackAt(pooledPairs, |pooledPairs|)
  {
    blocks := [];
    var i := 0;
    while i < |pooledPairs|
      invariant 0 <= i <= |pooledPairs| && blocks == StackAt(pooledPairs, i)
    {
      blocks := PushAndMerge(blocks, pooledPairs, i);
      i := i + 1;
    }
  }

  /** The finished stack holds the blocks of the whole list's groups. */
  lemma FinishedStack(q: seq<WeightedScorePair>)
    requires AllWeighted(q)
    ensures AllProper(PavGroups(q)) && StackAt(q, |q|) == BlocksOf(PavGroups(q))
  {
    assert q[..|q|] == q;
  }
}
