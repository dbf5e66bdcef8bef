/**
 Facts about every run: what one step changes, and when two strategies cannot be told apart.
 */
module BacktestRuns {
  import opened Options
  import opened Backtest

  /** Everything but the fees and the equity curve after one step. */
  lemma StepFacts(cfg: Config, m: Clmm, s: State, i: nat)
    requires i < |cfg.steps|
    ensures var t := Advance(cfg, m, s, i);
            var p := cfg.steps[i];
            var inRange := InRange(cfg, m, s.lower, s.upper, p);
            && t.prevTs == Some(p.ts)
            && t.inRangeSteps == s.inRangeSteps + (if inRange then 1 else 0)
            && (if Fires(cfg, m, s, i) then
                  && t.count == s.count + 1 && t.cost == s.cost + cfg.txCost
                  && t.sinceSteps == 0 && t.sinceSecs == 0
                  && t.armed == (!cfg.strategy.RetouchShift? && (inRange || s.armed))
                  && (t.lower, t.upper) == NewRange(cfg, m, s.lower, s.upper, i)
                else
                  && t.count == s.count && t.cost == s.cost
                  && t.sinceSteps == s.sinceSteps + 1
                  && t.sinceSecs == Elapsed(s, p)
                  && t.armed == (inRange || s.armed)
                  && t.lower == s.lower && t.upper == s.upper && t.liquidity == s.liquidity && t.model == s.model)
  {
  }

  /** A rebalance replaces the bounds by the new range of its step. */
  lemma FiredRange(cfg: Config, m: Clmm, i: nat)
    requires i < |cfg.steps| && FiresAt(cfg, m, i)
    ensures WindowFits(cfg, i)
    ensures var s, t := Run(cfg, m, i), Run(cfg, m, i + 1);
            (t.lower, t.upper) == NewRange(cfg, m, s.lower, s.upper, i)
  {
    var s, k := LastStep(cfg, m, i + 1);
    StepFacts(cfg, m, s, k);
  }

  /** The seconds since the last rebalance as step `p` sees them. */
  function Elapsed(s: State, p: Step): u64 {
    if s.prevTs.Some? then SatAdd(s.sinceSecs, SatSub(p.ts, s.prevTs.value)) else s.sinceSecs
  }

  predicate Paid(s: State, txCost: real) { s.cost == s.count as real * txCost }

  /** In every state the rebalance cost is the number of rebalances times the transaction cost. */
  lemma {:induction false} CostIsCount(cfg: Config, m: Clmm, n: nat)
    requires cfg.steps != [] && n <= |cfg.steps|
    ensures Paid(Run(cfg, m, n), cfg.txCost)
  {
    if n > 0 {
      var s, i := LastStep(cfg, m, n);
      CostIsCount(cfg, m, i);
      CostStep(cfg, m, s, i);
    }
  }

  lemma CostStep(cfg: Config, m: Clmm, s: State, i: nat)
    requires i < |cfg.steps| && Paid(s, cfg.txCost)
    ensures Paid(Advance(cfg, m, s, i), cfg.txCost)
  {
    StepFacts(cfg, m, s, i);
    PaidAgain(s, Advance(cfg, m, s, i), cfg.txCost);
  }

  lemma PaidAgain(s: State, t: State, txCost: real)
    requires Paid(s, txCost)
    requires (t.count == s.count && t.cost == s.cost) || (t.count == s.count + 1 && t.cost == s.cost + txCost)
    ensures Paid(t, txCost)
  {
    assert (s.count + 1) as real * txCost == s.count as real * txCost + txCost;
  }

  /** `t` has no liquidity and the range, cost and count of `s`. */
  predicate Frozen(s: State, t: State) {
    t.liquidity == 0 && t.count == s.count && t.cost == s.cost && t.lower == s.lower && t.upper == s.upper
  }

  lemma StaysFrozen(cfg: Config, m: Clmm, s: State, t: State, i: nat)
    requires i < |cfg.steps| && Frozen(s, t)
    ensures Frozen(s, Advance(cfg, m, t, i))
  {
    StepFacts(cfg, m, t, i);
  }

  /** A position without liquidity never moves, pays or rebalances again. */
  lemma {:induction false} ZeroLiquidityAbsorbs(cfg: Config, m: Clmm, n: nat, later: nat)
    requires cfg.steps != [] && n <= later <= |cfg.steps| && Run(cfg, m, n).liquidity == 0
    ensures Frozen(Run(cfg, m, n), Run(cfg, m, later))
    decreases later
  {
    if later > n {
      var t, i := LastStep(cfg, m, later);
      ZeroLiquidityAbsorbs(cfg, m, n, i);
      StaysFrozen(cfg, m, Run(cfg, m, n), t, i);
    }
  }

  // ---------------------------------------------------------------------------------------
  // Strategies that cannot be told apart
  // ---------------------------------------------------------------------------------------

  /** The strategies that reopen around the current price. */
  predicate Recenters(s: Strategy) {
    s.Static? || s.OorRecenter? || s.Threshold? || s.Periodic? || s.PeriodicSteps? || s.IlLimit?
  }

  lemma ObservedIgnoresStrategy(a: Config, b: Config, m: Clmm, s: State, i: nat)
    requires b == a.(strategy := b.strategy) && i < |a.steps|
    ensures Observed(a, m, s, i) == Observed(b, m, s, i)
  {
    var p := a.steps[i];
    assert PoolFees(a, i) == PoolFees(b, i);
    assert FeeShare(a, s.liquidity, s.model, p) == FeeShare(b, s.liquidity, s.model, p);
    assert InRange(a, m, s.lower, s.upper, p) == InRange(b, m, s.lower, s.upper, p);
  }

  /** Both strategies rebalance, or neither does, at step `i` of the run of `a`. */
  predicate AgreeAt(a: Config, b: Config, m: Clmm, i: nat)
    requires a.steps != [] && i < |a.steps| && i < |b.steps|
  {
    Fires(b, m, Run(a, m, i), i) == FiresAt(a, m, i)
  }

  lemma SameAdvance(a: Config, b: Config, m: Clmm, s: State, i: nat)
    requires b == a.(strategy := b.strategy) && i < |a.steps| && Recenters(a.strategy) && Recenters(b.strategy)
    requires Fires(b, m, s, i) == Fires(a, m, s, i)
    ensures Advance(a, m, s, i) == Advance(b, m, s, i)
  {
    ObservedIgnoresStrategy(a, b, m, s, i);
  }

  /** Two recentering strategies whose rebalances agree on every state one of them reaches. */
  lemma {:induction false} Bisimilar(a: Config, b: Config, m: Clmm, n: nat)
    requires b == a.(strategy := b.strategy) && a.steps != [] && n <= |a.steps|
    requires Recenters(a.strategy) && Recenters(b.strategy) && InitialRange(a) == InitialRange(b)
    requires forall i :: 0 <= i < n ==> AgreeAt(a, b, m, i)
    ensures Run(a, m, n) == Run(b, m, n)
  {
    if n > 0 {
      var i: nat := n - 1;
      Bisimilar(a, b, m, i);
      BisimilarStep(a, b, m, i);
    }
  }

  lemma BisimilarStep(a: Config, b: Config, m: Clmm, i: nat)
    requires b == a.(strategy := b.strategy) && i < |a.steps|
    requires Recenters(a.strategy) && Recenters(b.strategy)
    requires Run(a, m, i) == Run(b, m, i) && AgreeAt(a, b, m, i)
    ensures Run(a, m, i + 1) == Run(b, m, i + 1)
  {
    RunUnfolds(a, m, i + 1);
    RunUnfolds(b, m, i + 1);
    SameAdvance(a, b, m, Run(a, m, i), i);
  }

  /** Such strategies report the same range and the same summary. */
  lemma SameResult(a: Config, b: Config, m: Clmm)
    requires b == a.(strategy := b.strategy) && a.steps != []
    requires Recenters(a.strategy) && Recenters(b.strategy) && InitialRange(a) == InitialRange(b)
    requires forall i :: 0 <= i < |a.steps| ==> AgreeAt(a, b, m, i)
    ensures Result(a, m) == Result(b, m)
  {
    Bisimilar(a, b, m, |a.steps|);
    SameSummary(a, b, m, Run(a, m, |a.steps|));
  }

  lemma SameSummary(a: Config, b: Config, m: Clmm, s: State)
    requires b == a.(strategy := b.strategy) && a.steps != []
    ensures Summarised(a, m, s) == Summarised(b, m, s)
  {
    assert HodlValue(a) == HodlValue(b);
  }

  /** Every range of a recentering run without manual bounds is half the width around some price. */
  ghost predicate Centred(cfg: Config, s: State) {
    var half := cfg.width / 2.0;
    exists c :: Around(c, half) == (s.lower, s.upper)
  }

  lemma {:induction false} AlwaysCentred(cfg: Config, m: Clmm, n: nat)
    requires cfg.steps != [] && n <= |cfg.steps| && Recenters(cfg.strategy)
    requires !cfg.strategy.Static? || cfg.manualBounds.None?
    ensures Centred(cfg, Run(cfg, m, n))
  {
    if n == 0 {
      assert Around(cfg.steps[0].priceAb, cfg.width / 2.0) == (Run(cfg, m, 0).lower, Run(cfg, m, 0).upper);
    } else {
      var s, i := LastStep(cfg, m, n);
      AlwaysCentred(cfg, m, i);
      CentredStep(cfg, m, s, i);
    }
  }

  lemma CentredStep(cfg: Config, m: Clmm, s: State, i: nat)
    requires i < |cfg.steps| && Recenters(cfg.strategy) && Centred(cfg, s)
    ensures Centred(cfg, Advance(cfg, m, s, i))
  {
    StepFacts(cfg, m, s, i);
    var t := Advance(cfg, m, s, i);
    if Fires(cfg, m, s, i) {
      assert Around(cfg.steps[i].priceAb, cfg.width / 2.0) == (t.lower, t.upper);
    } else {
      var c :| Around(c, cfg.width / 2.0) == (s.lower, s.upper);
      assert Around(c, cfg.width / 2.0) == (t.lower, t.upper);
    }
  }

  /** A price inside the range is at most half the width away from its middle. */
  lemma InsideIsNear(c: real, half: real, price: real)
    requires var r := Around(c, half); r.0 <= price <= r.1
    ensures var r := Around(c, half);
            var mid := (r.0 + r.1) / 2.0;
            mid == c && (mid != 0.0 ==> Abs((price - mid) / mid) <= Abs(half))
  {
    var r := Around(c, half);
    assert r.0 == c - c * half && r.1 == c + c * half;
    assert (r.0 + r.1) / 2.0 == c;
    if c > 0.0 {
      QuotientWithin(price - c, c, half);
    } else if c < 0.0 {
      QuotientWithin(c - price, -c, -half);
      assert (price - c) / c == (c - price) / (-c);
    }
  }

  lemma QuotientWithin(d: real, c: real, h: real)
    requires c > 0.0 && -(c * h) <= d <= c * h
    ensures -h <= d / c <= h
  {
    assert d / c * c == d;
  }

  /** The in-range rule of every step reads prices, not ticks. */
  predicate PriceBound(cfg: Config) { !cfg.useTick || forall i :: 0 <= i < |cfg.steps| ==> cfg.steps[i].tick.None? }

  /** In a centred range a threshold beyond half the width is never met before the price leaves. */
  lemma WideThreshold(a: Config, b: Config, m: Clmm, s: State, i: nat)
    requires b == a.(strategy := b.strategy) && i < |a.steps| && PriceBound(a) && Centred(a, s)
    requires a.strategy.OorRecenter? && b.strategy.Threshold? && b.strategy.immediate
    requires b.strategy.pct > Abs(a.width / 2.0)
    ensures Fires(b, m, s, i) == Fires(a, m, s, i)
  {
    var p := a.steps[i];
    ObservedIgnoresStrategy(a, b, m, s, i);
    if InRange(a, m, s.lower, s.upper, p) {
      var c :| Around(c, a.width / 2.0) == (s.lower, s.upper);
      InsideIsNear(c, a.width / 2.0, p.priceAb);
    }
  }

  /** Immediate Threshold with a threshold above half the width is OorRecenter. */
  lemma ThresholdIsOorRecenter(a: Config, b: Config, m: Clmm)
    requires b == a.(strategy := b.strategy) && PriceBound(a)
    requires a.strategy.OorRecenter? && b.strategy.Threshold? && b.strategy.immediate
    requires b.strategy.pct > Abs(a.width / 2.0)
    ensures Result(a, m) == Result(b, m)
  {
    if a.steps != [] {
      forall i | 0 <= i < |a.steps|
        ensures AgreeAt(a, b, m, i)
      {
        AlwaysCentred(a, m, i);
        WideThreshold(a, b, m, Run(a, m, i), i);
      }
      SameResult(a, b, m);
    }
  }

  /** A separate closing limit only lowers the limit: the smaller of the two decides. */
  lemma LowerLimitDecides(a: Config, b: Config, m: Clmm, maxIl: real, closeIl: real, grace: u64)
    requires a.strategy == IlLimit(maxIl, Some(closeIl), grace)
    requires b == a.(strategy := IlLimit(Min(maxIl, closeIl), None, grace))
    ensures Result(a, m) == Result(b, m)
  {
    if a.steps != [] {
      forall i | 0 <= i < |a.steps|
        ensures AgreeAt(a, b, m, i)
      {
        LowerLimitFires(a, b, m, Run(a, m, i), i, maxIl, closeIl, grace);
      }
      SameResult(a, b, m);
    }
  }

  lemma LowerLimitFires(a: Config, b: Config, m: Clmm, s: State, i: nat, maxIl: real, closeIl: real, grace: u64)
    requires a.strategy == IlLimit(maxIl, Some(closeIl), grace) && i < |a.steps|
    requires b == a.(strategy := IlLimit(Min(maxIl, closeIl), None, grace))
    ensures Fires(b, m, s, i) == Fires(a, m, s, i)
  {
    ObservedIgnoresStrategy(a, b, m, s, i);
    var o := Observed(a, m, s, i);
    assert IlNow(a, m, o, a.steps[i]) == IlNow(b, m, o, a.steps[i]);
  }
}
