/**
 * What the block stack computes: the least-squares monotone fit.
 * Everything rests on one certificate: the running residual of the fitted values never goes
 * negative and returns to zero at every block boundary.
 */
module IsotonicOptimality {
  import opened IsotonicPooling
  import opened IsotonicPav

  // ---------------------------------------------------------------------------
  // Stack invariant: heavy groups with ascending means
  // ---------------------------------------------------------------------------

  /** Every prefix of the group lies at or above the group mean. */
  ghost predicate Heavy(g: Group) {
    forall m | 0 <= m <= |g| :: Excess(g[..m], Mean(g)) >= 0.0
  }

  ghost predicate AllHeavy(gs: seq<Group>) { forall i | 0 <= i < |gs| :: Heavy(gs[i]) }

  ghost predicate Ascending(gs: seq<Group>) {
    forall i, j | 0 <= i < j < |gs| :: Mean(gs[i]) <= Mean(gs[j])
  }

  lemma MergedMean(a: Group, b: Group)
    requires Proper(a) && Proper(b) && Mean(a) > Mean(b)
    ensures Proper(a + b) && Mean(b) <= Mean(a + b) <= Mean(a)
  {
    SumsConcat(a, b);
    var mu := Mean(a + b);
    ExcessAtMean(a + b);
    ExcessConcat(a, b, mu);
    MeanVersusLevel(a, mu);
    MeanVersusLevel(b, mu);
  }

  lemma HeavySuffix(g: Group, m: nat, mu: real)
    requires Proper(g) && Heavy(g) && m <= |g| && Mean(g) <= mu
    ensures Excess(g[m..], mu) <= 0.0
  {
    assert g == g[..m] + g[m..];
    ExcessConcat(g[..m], g[m..], Mean(g));
    ExcessAtMean(g);
    ExcessFalls(g[m..], Mean(g), mu);
  }

  lemma HeavyMerge(a: Group, b: Group)
    requires Proper(a) && Proper(b) && Heavy(a) && Heavy(b) && Mean(a) > Mean(b)
    ensures Heavy(a + b)
  {
    MergedMean(a, b);
    var mu := Mean(a + b);
    forall m | 0 <= m <= |a + b| ensures Excess((a + b)[..m], mu) >= 0.0 {
      if m <= |a| {
        assert (a + b)[..m] == a[..m];
        ExcessFalls(a[..m], mu, Mean(a));
      } else {
        var t := (a + b)[m..];
        assert t == b[m - |a|..];
        HeavySuffix(b, m - |a|, mu);
        assert a + b == (a + b)[..m] + t;
        ExcessConcat((a + b)[..m], t, mu);
        ExcessAtMean(a + b);
      }
    }
  }

  lemma {:induction false} SettleKeepsHeavy(gs: seq<Group>)
    requires AllProper(gs) && AllHeavy(gs) && |gs| > 0 && Ascending(gs[..|gs| - 1])
    ensures AllHeavy(Settle(gs)) && Ascending(Settle(gs))
    decreases |gs|
  {
    if Descends(gs) {
      var r := MergeLast(gs);
      HeavyMerge(gs[|gs| - 2], gs[|gs| - 1]);
      assert forall i | 0 <= i < |r| - 1 :: r[i] == r[..|r| - 1][i] == gs[i];
      SettleKeepsHeavy(r);
    } else {
      forall i, j | 0 <= i < j < |gs| ensures Mean(gs[i]) <= Mean(gs[j]) {
        var init := gs[..|gs| - 1];
        if j < |gs| - 1 {
          assert Mean(init[i]) <= Mean(init[j]);
        } else if i < |gs| - 2 {
          assert Mean(init[i]) <= Mean(init[|gs| - 2]);
        }
      }
    }
  }

  lemma SingleHeavy(p: WeightedScorePair)
    requires p.weight >= 1
    ensures Proper([p]) && Heavy([p])
  {
    var g := [p];
    SingleSums(p);
    ExcessAtMean(g);
    forall m | 0 <= m <= |g| ensures Excess(g[..m], Mean(g)) >= 0.0 {
      if m == 1 {
        assert g[..m] == g;
      }
    }
  }

  lemma PushKeepsHeavy(gs: seq<Group>, p: WeightedScorePair)
    requires AllProper(gs) && AllHeavy(gs) && Ascending(gs) && p.weight >= 1
    ensures AllHeavy(Settle(gs + [[p]])) && Ascending(Settle(gs + [[p]]))
  {
    SingleHeavy(p);
    assert (gs + [[p]])[..|gs|] == gs;
    SettleKeepsHeavy(gs + [[p]]);
  }

  lemma {:induction false} PavInvariant(q: seq<WeightedScorePair>)
    requires AllWeighted(q)
    ensures AllProper(PavGroups(q)) && AllHeavy(PavGroups(q)) && Ascending(PavGroups(q))
  {
    if |q| > 0 {
      var init := q[..|q| - 1];
      PavInvariant(init);
      PushKeepsHeavy(PavGroups(init), q[|q| - 1]);
    }
  }

  // ---------------------------------------------------------------------------
  // Fitted values and their residual certificate
  // ---------------------------------------------------------------------------

  function Constant(n: nat, mu: real): (v: seq<real>)
    ensures |v| == n && forall i | 0 <= i < n :: v[i] == mu
  {
    seq(n, _ => mu)
  }

  /** Each pooled pair's fitted value: the mean of its block. */
  function Values(gs: seq<Group>): (v: seq<real>)
    ensures |v| == |Concat(gs)|
  {
    if |gs| == 0 then []
    else Values(gs[..|gs| - 1]) + Constant(|gs[|gs| - 1]|, Mean(gs[|gs| - 1]))
  }

  /** Label mass of one pooled pair above the value `x`. */
  ghost function Gap(p: WeightedScorePair, x: real): real {
    p.sum as real - p.weight as real * x
  }

  /** Label mass minus fitted mass over the first `n` pooled pairs. */
  ghost function Residual(q: seq<WeightedScorePair>, v: seq<real>, n: nat): real
    requires n <= |q| == |v|
  {
    if n == 0 then 0.0
    else Residual(q, v, n - 1) + Gap(q[n - 1], v[n - 1])
  }

  ghost function Tilt(q: seq<WeightedScorePair>, v: seq<real>, u: seq<real>, n: nat): real
    requires n <= |q| == |v| == |u|
  {
    if n == 0 then 0.0
    else Tilt(q, v, u, n - 1) + TiltTerm(q[n - 1], v[n - 1], u[n - 1])
  }

  ghost function TiltTerm(p: WeightedScorePair, x: real, y: real): real { Gap(p, x) * y }


  ghost predicate NonDecreasing(u: seq<real>) {
    forall i, j | 0 <= i < j < |u| :: u[i] <= u[j]
  }

  /** `i` lies in a stretch of constant value whose residual starts and ends at zero. */
  ghost predicate Balanced(q: seq<WeightedScorePair>, v: seq<real>, i: nat)
    requires i < |q| == |v|
  {
    exists a: nat, b: nat | a <= i < b <= |q| ::
      Residual(q, v, a) == 0.0 && Residual(q, v, b) == 0.0 && forall t | a <= t < b :: v[t] == v[i]
  }

  /** The optimality conditions: a running residual that never dips and closes at zero. */
  ghost predicate Certificate(q: seq<WeightedScorePair>, v: seq<real>) {
    && |q| == |v|
    && NonDecreasing(v)
    && (forall n | 0 <= n <= |q| :: Residual(q, v, n) >= 0.0)
    && Residual(q, v, |q|) == 0.0
    && Tilt(q, v, v, |q|) == 0.0
  }

  ghost predicate AllBalanced(q: seq<WeightedScorePair>, v: seq<real>) {
    |q| == |v| && forall i | 0 <= i < |q| :: Balanced(q, v, i)
  }

  lemma {:induction false} SumsPrefix(q: seq<WeightedScorePair>, v: seq<real>, q': seq<WeightedScorePair>, v': seq<real>, n: nat)
    requires n <= |q| == |v| && n <= |q'| == |v'|
    requires forall i | 0 <= i < n :: q[i] == q'[i] && v[i] == v'[i]
    ensures Residual(q, v, n) == Residual(q', v', n)
    ensures Tilt(q, v, v, n) == Tilt(q', v', v', n)
  {
    if n > 0 {
      SumsPrefix(q, v, q', v', n - 1);
    }
  }

  lemma ExcessSnoc(g: Group, k: nat, mu: real)
    requires 0 < k <= |g|
    ensures Excess(g[..k], mu) == Excess(g[..k - 1], mu) + Gap(g[k - 1], mu)
  {
    assert g[..k][..k - 1] == g[..k - 1];
    var w := g[k - 1].weight as real;
    assert mu * (WeightOf(g[..k - 1]) as real + w) == mu * WeightOf(g[..k - 1]) as real + w * mu;
  }

  /** Over a stretch of constant value the residual moves by the excess at that value. */
  lemma {:induction false} ResidualOverGroup(q: seq<WeightedScorePair>, v: seq<real>, a: nat, g: Group, k: nat, mu: real)
    requires |q| == |v| && a + k <= |q| && k <= |g|
    requires forall i | a <= i < a + k :: q[i] == g[i - a] && v[i] == mu
    ensures Residual(q, v, a + k) == Residual(q, v, a) + Excess(g[..k], mu)
  {
    if k > 0 {
      ResidualOverGroup(q, v, a, g, k - 1, mu);
      ExcessSnoc(g, k, mu);
      assert q[a + k - 1] == g[k - 1] && v[a + k - 1] == mu;
    } else {
      assert Excess(g[..0], mu) == 0.0;
    }
  }

  ghost predicate TiltIs(tilt: real, residual: real, mu: real) { tilt == residual * mu }

  lemma NoTilt(mu: real)
    ensures TiltIs(0.0, 0.0, mu)
  {
  }

  /** Past a boundary where both vanish, the self-tilt is the residual times the value. */
  lemma {:induction false} TiltOverGroup(q: seq<WeightedScorePair>, v: seq<real>, a: nat, b: nat, mu: real)
    requires |q| == |v| && a <= b <= |q|
    requires forall i | a <= i < b :: v[i] == mu
    requires Tilt(q, v, v, a) == 0.0 && Residual(q, v, a) == 0.0
    ensures TiltIs(Tilt(q, v, v, b), Residual(q, v, b), mu)
  {
    if a < b {
      TiltOverGroup(q, v, a, b - 1, mu);
      TiltNext(q, v, b, mu);
    } else {
      NoTilt(mu);
    }
  }

  lemma TiltStep(q: seq<WeightedScorePair>, v: seq<real>, n: nat, mu: real)
    requires |q| == |v| && 0 < n <= |q| && v[n - 1] == mu
    ensures Tilt(q, v, v, n) == Tilt(q, v, v, n - 1) + Gap(q[n - 1], mu) * mu
    ensures Residual(q, v, n) == Residual(q, v, n - 1) + Gap(q[n - 1], mu)
  {
  }

  lemma TiltNext(q: seq<WeightedScorePair>, v: seq<real>, n: nat, mu: real)
    requires |q| == |v| && 0 < n <= |q| && v[n - 1] == mu
    requires TiltIs(Tilt(q, v, v, n - 1), Residual(q, v, n - 1), mu)
    ensures TiltIs(Tilt(q, v, v, n), Residual(q, v, n), mu)
  {
    TiltStep(q, v, n, mu);
    AddTilt(Tilt(q, v, v, n - 1), Residual(q, v, n - 1), Gap(q[n - 1], mu), mu);
  }

  lemma AddTilt(tilt: real, residual: real, gap: real, mu: real)
    requires TiltIs(tilt, residual, mu)
    ensures TiltIs(tilt + gap * mu, residual + gap, mu)
  {
    Distribute(residual, gap, mu);
  }

  lemma Distribute(a: real, b: real, c: real)
    ensures (a + b) * c == a * c + b * c
  {
  }

  lemma {:induction false} ValuesCertified(gs: seq<Group>)
    requires AllProper(gs) && AllHeavy(gs) && Ascending(gs)
    ensures Certificate(Concat(gs), Values(gs)) && AllBalanced(Concat(gs), Values(gs))
    ensures |gs| > 0 ==> forall x | x in Values(gs) :: x <= Mean(gs[|gs| - 1])
  {
    if |gs| > 0 {
      var init, g := gs[..|gs| - 1], gs[|gs| - 1];
      assert AllProper(init) && AllHeavy(init) && Ascending(init);
      ValuesCertified(init);
      if |init| > 0 {
        assert Mean(gs[|gs| - 2]) <= Mean(g);
      }
      CertificateGrows(Concat(init), Values(init), g);
    }
  }

  /** The residual keeps its old values and continues through the new group by its excess. */
  lemma ResidualGrows(q: seq<WeightedScorePair>, v: seq<real>, g: Group, mu: real, n: nat)
    requires |q| == |v| && n <= |q| + |g|
    ensures var q', v' := q + g, v + Constant(|g|, mu);
      if n <= |q| then Residual(q', v', n) == Residual(q, v, n)
      else Residual(q', v', n) == Residual(q, v, |q|) + Excess(g[..n - |q|], mu)
  {
    var q', v' := q + g, v + Constant(|g|, mu);
    SumsPrefix(q', v', q, v, if n <= |q| then n else |q|);
    if n > |q| {
      ResidualOverGroup(q', v', |q|, g, n - |q|, mu);
    }
  }

  lemma CertificateGrows(q: seq<WeightedScorePair>, v: seq<real>, g: Group)
    requires Certificate(q, v) && AllBalanced(q, v) && Proper(g) && Heavy(g)
    requires forall x | x in v :: x <= Mean(g)
    ensures Certificate(q + g, v + Constant(|g|, Mean(g)))
    ensures AllBalanced(q + g, v + Constant(|g|, Mean(g)))
  {
    var mu := Mean(g);
    var q', v' := q + g, v + Constant(|g|, mu);
    ExcessAtMean(g);
    assert g[..|g|] == g;
    forall n | 0 <= n <= |q'| ensures Residual(q', v', n) >= 0.0 {
      ResidualGrows(q, v, g, mu, n);
    }
    ResidualGrows(q, v, g, mu, |q|);
    ResidualGrows(q, v, g, mu, |q'|);
    assert Tilt(q', v', v', |q'|) == 0.0 by {
      SumsPrefix(q', v', q, v, |q|);
      TiltOverGroup(q', v', |q|, |q'|, mu);
    }
    assert NonDecreasing(v') by {
      NonDecreasingAppend(v, |g|, mu);
    }
    BalancedGrows(q, v, g);
  }

  lemma NonDecreasingAppend(v: seq<real>, k: nat, mu: real)
    requires NonDecreasing(v) && forall x | x in v :: x <= mu
    ensures NonDecreasing(v + Constant(k, mu))
  {
    assert forall i | 0 <= i < |v| :: v[i] in v;
  }

  lemma BalancedGrows(q: seq<WeightedScorePair>, v: seq<real>, g: Group)
    requires AllBalanced(q, v) && Proper(g) && Residual(q, v, |q|) == 0.0
    ensures AllBalanced(q + g, v + Constant(|g|, Mean(g)))
  {
    var mu := Mean(g);
    var q', v' := q + g, v + Constant(|g|, mu);
    ExcessAtMean(g);
    assert g[..|g|] == g;
    ResidualGrows(q, v, g, mu, |q|);
    ResidualGrows(q, v, g, mu, |q'|);
    forall i | 0 <= i < |q'| ensures Balanced(q', v', i) {
      if i < |q| {
        assert Balanced(q, v, i);
        var a: nat, b: nat :| a <= i < b <= |q| && Residual(q, v, a) == 0.0 && Residual(q, v, b) == 0.0
          && forall t | a <= t < b :: v[t] == v[i];
        ResidualGrows(q, v, g, mu, a);
        ResidualGrows(q, v, g, mu, b);
        assert forall t | a <= t < b :: v'[t] == v'[i];
      } else {
        assert forall t | |q| <= t < |q'| :: v'[t] == v'[i];
      }
    }
  }

  // ---------------------------------------------------------------------------
  // Least squares
  // ---------------------------------------------------------------------------

  /** Squared error of the values `u` against the pooled labels. */
  ghost function WeightedLoss(q: seq<WeightedScorePair>, u: seq<real>, n: nat): real
    requires n <= |q| == |u|
  {
    if n == 0 then 0.0
    else WeightedLoss(q, u, n - 1) + LossTerm(q[n - 1], u[n - 1])
  }

  ghost function LossTerm(p: WeightedScorePair, x: real): real {
    p.sum as real * ((x - 1.0) * (x - 1.0)) + (p.weight as real - p.sum as real) * (x * x)
  }

  ghost function WeightedDistance(q: seq<WeightedScorePair>, u: seq<real>, v: seq<real>, n: nat): real
    requires n <= |q| == |u| == |v|
  {
    if n == 0 then 0.0
    else WeightedDistance(q, u, v, n - 1) + DistanceTerm(q[n - 1], u[n - 1], v[n - 1])
  }

  ghost function DistanceTerm(p: WeightedScorePair, x: real, y: real): real {
    p.weight as real * ((x - y) * (x - y))
  }

  lemma LossStep(p: WeightedScorePair, x: real, y: real)
    ensures LossTerm(p, x) == LossTerm(p, y) + DistanceTerm(p, x, y) - 2.0 * (TiltTerm(p, y, x) - TiltTerm(p, y, y))
  {
    var s, w := p.sum as real, p.weight as real;
    LossTermExpands(s, w, x);
    LossTermExpands(s, w, y);
    assert w * ((x - y) * (x - y)) == w * (x * x) - 2.0 * (w * (x * y)) + w * (y * y);
    assert (s - w * y) * x == s * x - w * (x * y);
    assert (s - w * y) * y == s * y - w * (y * y);
  }

  lemma LossTermExpands(s: real, w: real, x: real)
    ensures s * ((x - 1.0) * (x - 1.0)) + (w - s) * (x * x) == w * (x * x) - 2.0 * (s * x) + s
  {
  }

  lemma {:induction false} LossGap(q: seq<WeightedScorePair>, u: seq<real>, v: seq<real>, n: nat)
    requires n <= |q| == |u| == |v|
    ensures WeightedLoss(q, u, n) == WeightedLoss(q, v, n) + WeightedDistance(q, u, v, n)
                                     - 2.0 * (Tilt(q, v, u, n) - Tilt(q, v, v, n))
  {
    if n > 0 {
      LossGap(q, u, v, n - 1);
      LossStep(q[n - 1], u[n - 1], v[n - 1]);
    }
  }

  /** Summation by parts: ascending weights cannot lift a residual that never goes negative. */
  lemma {:induction false} TiltBounded(q: seq<WeightedScorePair>, v: seq<real>, u: seq<real>, n: nat)
    requires 0 < n <= |q| == |u| == |v| && NonDecreasing(u)
    requires forall k | 0 <= k <= n :: Residual(q, v, k) >= 0.0
    ensures Tilt(q, v, u, n) <= Residual(q, v, n) * u[n - 1]
  {
    var e, r := Gap(q[n - 1], v[n - 1]), Residual(q, v, n - 1);
    Distribute(r, e, u[n - 1]);
    if n == 1 {
      assert Tilt(q, v, u, n - 1) == 0.0;
    } else {
      TiltBounded(q, v, u, n - 1);
      assert r * u[n - 2] <= r * u[n - 1];
    }
  }

  lemma TiltAgainstCertificate(q: seq<WeightedScorePair>, v: seq<real>, u: seq<real>)
    requires Certificate(q, v) && |u| == |q| && NonDecreasing(u)
    ensures Tilt(q, v, u, |q|) <= 0.0
  {
    if |q| > 0 {
      TiltBounded(q, v, u, |q|);
    }
  }

  /** A certified fit beats every monotone competitor by at least the squared distance to it. */
  lemma CertifiedIsOptimal(q: seq<WeightedScorePair>, v: seq<real>, u: seq<real>)
    requires Certificate(q, v) && |u| == |q| && NonDecreasing(u)
    ensures WeightedLoss(q, u, |q|) >= WeightedLoss(q, v, |q|) + WeightedDistance(q, u, v, |q|)
  {
    LossGap(q, u, v, |q|);
    TiltAgainstCertificate(q, v, u);
  }
}
