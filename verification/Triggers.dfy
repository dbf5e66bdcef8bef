/**
 When the price strategies rebalance, told from prices: the price of the last rebalance is the
 middle of the range, and every trigger compares the price of a step with it.
 */
module Triggers {
  import opened Options
  import opened Backtest
  import opened BacktestRuns
  import opened Cadence
  import opened Valuation

  // ---------------------------------------------------------------------------------------
  // The range of a recentering strategy
  // ---------------------------------------------------------------------------------------

  /** The price at the last rebalance before step `n`, or the first price. */
  function Anchor(cfg: Config, m: Clmm, n: nat): real
    requires cfg.steps != [] && n <= |cfg.steps|
  {
    cfg.steps[LastReset(cfg, m, n)].priceAb
  }

  predicate AnchoredTo(cfg: Config, s: State, c: real) { (s.lower, s.upper) == Around(c, cfg.width / 2.0) }

  lemma AnchorStep(cfg: Config, m: Clmm, s: State, i: nat, c: real)
    requires i < |cfg.steps| && Recenters(cfg.strategy) && AnchoredTo(cfg, s, c)
    ensures AnchoredTo(cfg, Advance(cfg, m, s, i), if Fires(cfg, m, s, i) then cfg.steps[i].priceAb else c)
  {
    StepFacts(cfg, m, s, i);
  }

  /** The range is always around the price of the last rebalance. */
  lemma {:induction false} AlwaysAnchored(cfg: Config, m: Clmm, n: nat)
    requires cfg.steps != [] && n <= |cfg.steps| && Recenters(cfg.strategy)
    requires !cfg.strategy.Static? || cfg.manualBounds.None?
    ensures AnchoredTo(cfg, Run(cfg, m, n), Anchor(cfg, m, n))
  {
    if n > 0 {
      var s, i := LastStep(cfg, m, n);
      AlwaysAnchored(cfg, m, i);
      AnchorStep(cfg, m, s, i, Anchor(cfg, m, i));
    }
  }

  /** The price is outside the band of the width around `c`. */
  predicate OutOfBand(c: real, width: real, price: real) {
    price < c - c * (width / 2.0) || price > c + c * (width / 2.0)
  }

  lemma BandIsRange(c: real, width: real, price: real)
    ensures var r := Around(c, width / 2.0);
            && (OutOfBand(c, width, price) <==> !(r.0 <= price <= r.1))
            && (r.0 + r.1) / 2.0 == c
  {
    var half := width / 2.0;
    assert c * (1.0 - half) == c - c * half && c * (1.0 + half) == c + c * half;
  }

  lemma InRangeIsBand(cfg: Config, m: Clmm, s: State, i: nat, c: real)
    requires i < |cfg.steps| && PriceBound(cfg) && AnchoredTo(cfg, s, c)
    ensures InRange(cfg, m, s.lower, s.upper, cfg.steps[i]) <==> !OutOfBand(c, cfg.width, cfg.steps[i].priceAb)
  {
    BandIsRange(c, cfg.width, cfg.steps[i].priceAb);
  }

  // ---------------------------------------------------------------------------------------
  // Out of range and thresholds
  // ---------------------------------------------------------------------------------------

  /** Out-of-range recentering fires exactly when liquid and outside the band of the last price. */
  lemma OorFires(cfg: Config, m: Clmm, i: nat)
    requires i < |cfg.steps| && PriceBound(cfg) && cfg.strategy.OorRecenter?
    ensures FiresAt(cfg, m, i) <==>
            Run(cfg, m, i).liquidity > 0 && OutOfBand(Anchor(cfg, m, i), cfg.width, cfg.steps[i].priceAb)
  {
    AlwaysAnchored(cfg, m, i);
    InRangeIsBand(cfg, m, Run(cfg, m, i), i, Anchor(cfg, m, i));
  }

  /** The price differs from `c` by at least the fraction `pct` of it. */
  predicate MovedBy(c: real, pct: real, price: real) { price - c >= pct * c || c - price >= pct * c }

  lemma RelativeMove(c: real, pct: real, price: real)
    requires c > 0.0
    ensures Abs((price - c) / c) >= pct <==> MovedBy(c, pct, price)
  {
    var q := (price - c) / c;
    assert q * c == price - c;
    Compared(q, pct, c);
    Compared(-q, pct, c);
    assert (-q) * c == c - price;
  }

  lemma Compared(q: real, pct: real, c: real)
    requires c > 0.0
    ensures q >= pct <==> q * c >= pct * c
  {
    assert (q - pct) * c == q * c - pct * c;
    SignOf(q - pct, c);
  }

  lemma SignOf(x: real, c: real)
    requires c > 0.0
    ensures x >= 0.0 <==> x * c >= 0.0
  {
  }

  /** Whether a threshold strategy asks for a rebalance at a price, in the range around `c`. */
  lemma ThresholdAsks(cfg: Config, m: Clmm, o: State, i: nat, c: real)
    requires i < |cfg.steps| && PriceBound(cfg) && cfg.strategy.Threshold? && AnchoredTo(cfg, o, c) && c > 0.0
    ensures var price := cfg.steps[i].priceAb;
            Triggered(cfg, m, o, i) <==>
              if OutOfBand(c, cfg.width, price)
              then cfg.strategy.immediate || o.sinceSecs >= SatMul(cfg.strategy.minHours, 3600)
              else MovedBy(c, cfg.strategy.pct, price)
  {
    InRangeIsBand(cfg, m, o, i, c);
    BandIsRange(c, cfg.width, cfg.steps[i].priceAb);
    RelativeMove(c, cfg.strategy.pct, cfg.steps[i].priceAb);
  }

  lemma ThresholdAt(cfg: Config, m: Clmm, s: State, i: nat, c: real)
    requires i < |cfg.steps| && PriceBound(cfg) && cfg.strategy.Threshold? && AnchoredTo(cfg, s, c) && c > 0.0
    ensures var price := cfg.steps[i].priceAb;
            Fires(cfg, m, s, i) <==>
              s.liquidity > 0 &&
              if OutOfBand(c, cfg.width, price)
              then cfg.strategy.immediate || Elapsed(s, cfg.steps[i]) >= SatMul(cfg.strategy.minHours, 3600)
              else MovedBy(c, cfg.strategy.pct, price)
  {
    ThresholdAsks(cfg, m, Observed(cfg, m, s, i), i, c);
  }

  /**
   A threshold strategy fires exactly when liquid and, inside the band of the last price, the price
   has moved by the threshold; outside it, at once or after the minimum interval.
   */
  lemma ThresholdFires(cfg: Config, m: Clmm, i: nat)
    requires i < |cfg.steps| && PriceBound(cfg) && cfg.strategy.Threshold? && Chronological(cfg.steps)
    requires forall k :: 0 <= k < |cfg.steps| ==> cfg.steps[k].priceAb > 0.0
    ensures var c, price := Anchor(cfg, m, i), cfg.steps[i].priceAb;
            FiresAt(cfg, m, i) <==>
              Run(cfg, m, i).liquidity > 0 &&
              if OutOfBand(c, cfg.width, price)
              then cfg.strategy.immediate || Gap(cfg, m, i) >= SatMul(cfg.strategy.minHours, 3600)
              else MovedBy(c, cfg.strategy.pct, price)
  {
    var s := Run(cfg, m, i);
    AlwaysAnchored(cfg, m, i);
    ClockAlways(cfg, m, i);
    ClockAdvance(cfg, m, s, i, LastReset(cfg, m, i));
    ThresholdAt(cfg, m, s, i, Anchor(cfg, m, i));
  }

  /** An immediate threshold needs no clock. */
  lemma ImmediateThresholdFires(cfg: Config, m: Clmm, i: nat)
    requires i < |cfg.steps| && PriceBound(cfg) && cfg.strategy.Threshold? && cfg.strategy.immediate
    requires forall k :: 0 <= k < |cfg.steps| ==> cfg.steps[k].priceAb > 0.0
    ensures var c, price := Anchor(cfg, m, i), cfg.steps[i].priceAb;
            FiresAt(cfg, m, i) <==>
              Run(cfg, m, i).liquidity > 0 &&
              (OutOfBand(c, cfg.width, price) || MovedBy(c, cfg.strategy.pct, price))
  {
    AlwaysAnchored(cfg, m, i);
    ThresholdAt(cfg, m, Run(cfg, m, i), i, Anchor(cfg, m, i));
  }

  // ---------------------------------------------------------------------------------------
  // IL limit
  // ---------------------------------------------------------------------------------------

  /** Steps since the last rebalance after the first `n`. */
  function StepsSince(cfg: Config, m: Clmm, n: nat): nat
    requires cfg.steps != [] && n <= |cfg.steps|
  {
    if n == 0 || FiresAt(cfg, m, n - 1) then 0 else StepsSince(cfg, m, n - 1) + 1
  }

  lemma SinceStep(cfg: Config, m: Clmm, s: State, i: nat)
    requires i < |cfg.steps|
    ensures Advance(cfg, m, s, i).sinceSteps == if Fires(cfg, m, s, i) then 0 else s.sinceSteps + 1
  {
    StepFacts(cfg, m, s, i);
  }

  lemma {:induction false} StepsCounted(cfg: Config, m: Clmm, n: nat)
    requires cfg.steps != [] && n <= |cfg.steps|
    ensures Run(cfg, m, n).sinceSteps == StepsSince(cfg, m, n)
  {
    if n > 0 {
      var s, i := LastStep(cfg, m, n);
      StepsCounted(cfg, m, i);
      SinceStep(cfg, m, s, i);
    }
  }

  /** Value of the position plus costs paid, against half the capital grown with each price. */
  function Drift(cfg: Config, m: Clmm, s: State, i: nat): real
    requires i < |cfg.steps| && PositiveStart(cfg)
  {
    var p, first := cfg.steps[i], cfg.steps[0];
    ValueAt(m, s, p) + s.count as real * cfg.txCost
    - HalfAndHalf(cfg.capital, p.priceUsd / first.priceUsd, p.quoteUsd / first.quoteUsd)
  }

  /** The limits as a share of the capital; without capital the drift counts as zero. */
  predicate LimitMet(cfg: Config, drift: real, limit: real) {
    if cfg.capital > 0.0 then drift >= limit * cfg.capital || -drift >= limit * cfg.capital else 0.0 >= limit
  }

  lemma RelativeDrift(drift: real, capital: real, limit: real)
    requires capital > 0.0
    ensures Abs(drift / capital) >= limit <==> drift >= limit * capital || -drift >= limit * capital
  {
    var q := drift / capital;
    assert q * capital == drift && (-q) * capital == -drift;
    Compared(q, limit, capital);
    Compared(-q, limit, capital);
  }

  lemma IlIsDrift(cfg: Config, m: Clmm, s: State, i: nat)
    requires i < |cfg.steps| && PositiveStart(cfg) && Paid(s, cfg.txCost)
    ensures var o, p := Observed(cfg, m, s, i), cfg.steps[i];
            IlNow(cfg, m, o, p) == if cfg.capital > 0.0 then Drift(cfg, m, s, i) / cfg.capital else 0.0
  {
    var p := cfg.steps[i];
    HeldFollowsPrices(cfg, p.priceUsd, p.quoteUsd);
    ValueIsPosition(m, s, p);
  }

  lemma IlMeetsLimit(cfg: Config, m: Clmm, s: State, i: nat, limit: real)
    requires i < |cfg.steps| && PositiveStart(cfg) && Paid(s, cfg.txCost)
    ensures Abs(IlNow(cfg, m, Observed(cfg, m, s, i), cfg.steps[i])) >= limit <==>
            LimitMet(cfg, Drift(cfg, m, s, i), limit)
  {
    IlIsDrift(cfg, m, s, i);
    if cfg.capital > 0.0 {
      RelativeDrift(Drift(cfg, m, s, i), cfg.capital, limit);
    }
  }

  lemma IlLimitAt(cfg: Config, m: Clmm, s: State, i: nat, c: real)
    requires i < |cfg.steps| && PriceBound(cfg) && cfg.strategy.IlLimit? && PositiveStart(cfg)
    requires AnchoredTo(cfg, s, c) && Paid(s, cfg.txCost)
    ensures var st, drift := cfg.strategy, Drift(cfg, m, s, i);
            Fires(cfg, m, s, i) <==>
              s.liquidity > 0 &&
              (OutOfBand(c, cfg.width, cfg.steps[i].priceAb)
               || (s.sinceSteps + 1 > st.grace
                   && (LimitMet(cfg, drift, st.maxIl) || (st.closeIl.Some? && LimitMet(cfg, drift, st.closeIl.value)))))
  {
    InRangeIsBand(cfg, m, s, i, c);
    IlMeetsLimit(cfg, m, s, i, cfg.strategy.maxIl);
    IlMeetsLimit(cfg, m, s, i, cfg.strategy.closeIl.GetOr(cfg.strategy.maxIl));
  }

  /**
   The IL limit fires exactly when liquid and outside the band of the last price, or more than the
   grace steps after the last rebalance with a drift from holding that meets one of its limits.
   */
  lemma IlLimitFires(cfg: Config, m: Clmm, i: nat)
    requires i < |cfg.steps| && PriceBound(cfg) && cfg.strategy.IlLimit? && PositiveStart(cfg)
    ensures var st, drift := cfg.strategy, Drift(cfg, m, Run(cfg, m, i), i);
            FiresAt(cfg, m, i) <==>
              Run(cfg, m, i).liquidity > 0 &&
              (OutOfBand(Anchor(cfg, m, i), cfg.width, cfg.steps[i].priceAb)
               || (StepsSince(cfg, m, i) + 1 > st.grace
                   && (LimitMet(cfg, drift, st.maxIl) || (st.closeIl.Some? && LimitMet(cfg, drift, st.closeIl.value)))))
  {
    AlwaysAnchored(cfg, m, i);
    StepsCounted(cfg, m, i);
    CostIsCount(cfg, m, i);
    IlLimitAt(cfg, m, Run(cfg, m, i), i, Anchor(cfg, m, i));
  }

  // ---------------------------------------------------------------------------------------
  // In range by ticks
  // ---------------------------------------------------------------------------------------

  predicate ByTicks(cfg: Config, p: Step) { cfg.useTick && p.tick.Some? }

  /** Neighbouring tick ranges share no tick and leave none out; the lower edge belongs to a range. */
  lemma TicksTile(cfg: Config, m: Clmm, a: real, b: real, c: real, p: Step)
    requires ByTicks(cfg, p) && m.tickOf(Max(a, 0.0)) <= m.tickOf(Max(b, 0.0)) <= m.tickOf(Max(c, 0.0))
    ensures InRange(cfg, m, a, c, p) <==> InRange(cfg, m, a, b, p) || InRange(cfg, m, b, c, p)
    ensures !(InRange(cfg, m, a, b, p) && InRange(cfg, m, b, c, p))
    ensures p.tick.value == m.tickOf(Max(b, 0.0)) < m.tickOf(Max(c, 0.0)) ==> InRange(cfg, m, b, c, p)
  {
  }

  /** Negative bounds count as zero. */
  lemma NegativeBoundsAreZero(cfg: Config, m: Clmm, a: real, b: real, p: Step)
    requires ByTicks(cfg, p) && a <= 0.0
    ensures InRange(cfg, m, a, b, p) == InRange(cfg, m, 0.0, b, p)
    ensures InRange(cfg, m, b, a, p) == InRange(cfg, m, b, 0.0, p)
  {
  }

  /** By price both edges belong to a range. */
  lemma PriceEdges(cfg: Config, m: Clmm, a: real, b: real, p: Step)
    requires !ByTicks(cfg, p)
    ensures InRange(cfg, m, a, b, p) <==> a <= p.priceAb && p.priceAb <= b
  {
  }
}
