/**
 What the reported values of a backtest mean: holding is worth what prices make of it, a position
 that always holds the benchmark never beats or loses to it, and opening a position moves no value.
 */
module Valuation {
  import opened Options
  import opened Backtest
  import opened BacktestRuns
  import opened FeeFlow

  // ---------------------------------------------------------------------------------------
  // Holding
  // ---------------------------------------------------------------------------------------

  /** Half the capital grows with each price. */
  function HalfAndHalf(capital: real, growthA: real, growthB: real): real {
    capital / 2.0 * growthA + capital / 2.0 * growthB
  }

  predicate PositiveStart(cfg: Config) {
    cfg.steps != [] && cfg.steps[0].priceUsd > 0.0 && cfg.steps[0].quoteUsd > 0.0
  }

  /** What the benchmark holds is worth at the prices `usd` and `quote`. */
  function Held(cfg: Config, usd: real, quote: real): real { HodlAmounts(cfg).0 * usd + HodlAmounts(cfg).1 * quote }

  lemma Scales(half: real, start: real, now: real)
    requires start > 0.0
    ensures half / start * now == half * (now / start)
  {
    var u, v := half / start, now / start;
    assert u * start == half && v * start == now;
    assert u * (v * start) == (u * start) * v;
  }

  /** The benchmark is half the capital in each token at the first prices. */
  lemma HeldFollowsPrices(cfg: Config, usd: real, quote: real)
    requires PositiveStart(cfg)
    ensures Held(cfg, usd, quote) ==
            HalfAndHalf(cfg.capital, usd / cfg.steps[0].priceUsd, quote / cfg.steps[0].quoteUsd)
  {
    Scales(cfg.capital / 2.0, cfg.steps[0].priceUsd, usd);
    Scales(cfg.capital / 2.0, cfg.steps[0].quoteUsd, quote);
  }

  lemma HodlIsHeld(cfg: Config)
    requires cfg.steps != []
    ensures var last := cfg.steps[|cfg.steps| - 1];
            HodlValue(cfg) == Held(cfg, last.priceUsd, if last.quoteUsd > 0.0 then last.quoteUsd else 0.0)
  {
  }

  /** The benchmark's final value is the capital times the mean growth of both prices, or 0 without a first price. */
  lemma HodlFollowsPrices(cfg: Config)
    requires cfg.steps != []
    ensures var first, last := cfg.steps[0], cfg.steps[|cfg.steps| - 1];
            HodlValue(cfg) ==
              if PositiveStart(cfg)
              then HalfAndHalf(cfg.capital, last.priceUsd / first.priceUsd,
                               (if last.quoteUsd > 0.0 then last.quoteUsd else 0.0) / first.quoteUsd)
              else 0.0
  {
    var last := cfg.steps[|cfg.steps| - 1];
    HodlIsHeld(cfg);
    if PositiveStart(cfg) {
      HeldFollowsPrices(cfg, last.priceUsd, if last.quoteUsd > 0.0 then last.quoteUsd else 0.0);
    }
  }

  /** On a path that ends at its first prices holding keeps the capital. */
  lemma HodlKeepsCapital(cfg: Config)
    requires PositiveStart(cfg)
    requires var first, last := cfg.steps[0], cfg.steps[|cfg.steps| - 1];
             last.priceUsd == first.priceUsd && last.quoteUsd == first.quoteUsd
    ensures HodlValue(cfg) == cfg.capital
  {
    HodlFollowsPrices(cfg);
  }

  /** The position always holds what the benchmark holds. */
  ghost predicate HoldsBenchmark(cfg: Config, m: Clmm) {
    forall l, lower, price, upper :: m.amounts(l, lower, price, upper) == HodlAmounts(cfg)
  }

  lemma BenchmarkPosition(cfg: Config, m: Clmm, s: State, p: Step)
    requires HoldsBenchmark(cfg, m)
    ensures PositionValue(m, s.liquidity, s.lower, s.upper, p) == Held(cfg, p.priceUsd, p.quoteUsd)
  {
  }

  /** Such a position is worth the benchmark plus its fees, whatever it does. */
  lemma HoldingIsNeutral(cfg: Config, m: Clmm)
    requires cfg.steps != [] && HoldsBenchmark(cfg, m) && cfg.steps[|cfg.steps| - 1].quoteUsd >= 0.0
    ensures var r := Result(cfg, m).2;
            && r.finalValue == HodlValue(cfg) + r.totalFees
            && r.vsHodl == r.totalFees
            && r.finalPnl == HodlValue(cfg) - cfg.capital + r.totalFees
  {
    HodlIsHeld(cfg);
    BenchmarkPosition(cfg, m, Run(cfg, m, |cfg.steps|), cfg.steps[|cfg.steps| - 1]);
  }

  // ---------------------------------------------------------------------------------------
  // Opening a position
  // ---------------------------------------------------------------------------------------

  /** Two amounts at two prices. */
  function Worth(held: (real, real), usd: real, quote: real): real { held.0 * usd + held.1 * quote }

  /**
   Liquidity is estimated well: what it holds right after it is opened with `capital` over the USD
   bounds `low * quote` and `high * quote` is worth `capital` up to `eps`.
   */
  ghost predicate Faithful(m: Clmm, eps: real) {
    forall low, high, capital, quote, ab, usd | capital >= 0.0 && quote > 0.0 ::
      OpensAt(m, eps, low, high, capital, quote, ab, usd)
  }

  predicate OpensAt(m: Clmm, eps: real, low: real, high: real, capital: real, quote: real, ab: real, usd: real) {
    var liquidity := m.estimate(low * quote, high * quote, capital, quote, ab, usd);
    Near(Worth(m.amounts(liquidity, low, ab, high), usd, quote), capital, eps)
  }

  predicate Near(a: real, b: real, eps: real) { b - eps <= a <= b + eps }

  /** The value of the position of a state at the prices of a step. */
  function ValueAt(m: Clmm, s: State, p: Step): real {
    Worth(m.amounts(s.liquidity, s.lower, p.priceAb, s.upper), p.priceUsd, p.quoteUsd)
  }

  /** What is left of a value after the cost. */
  function Left(value: real, cost: real): real { if value > cost then value - cost else 0.0 }

  lemma ValueIsPosition(m: Clmm, s: State, p: Step)
    ensures ValueAt(m, s, p) == PositionValue(m, s.liquidity, s.lower, s.upper, p)
  {
  }

  /** `t` was opened at `p` with the capital `capital`. */
  predicate Opened(m: Clmm, t: State, p: Step, capital: real) {
    t.liquidity == m.estimate(Usd(t.lower, p.quoteUsd), Usd(t.upper, p.quoteUsd), capital,
                              p.quoteUsd, p.priceAb, p.priceUsd)
  }

  lemma OpenedIsNear(m: Clmm, eps: real, t: State, p: Step, capital: real)
    requires Faithful(m, eps) && capital >= 0.0 && p.quoteUsd > 0.0 && Opened(m, t, p, capital)
    ensures Near(ValueAt(m, t, p), capital, eps)
  {
    assert OpensAt(m, eps, t.lower, t.upper, capital, p.quoteUsd, p.priceAb, p.priceUsd);
  }

  lemma RebalancedOpens(cfg: Config, m: Clmm, o: State, i: nat)
    requires i < |cfg.steps| && WindowFits(cfg, i)
    ensures var value := PositionValue(m, o.liquidity, o.lower, o.upper, cfg.steps[i]);
            Opened(m, Rebalanced(cfg, m, o, i), cfg.steps[i], Left(value, cfg.txCost))
  {
  }

  lemma FiringOpens(cfg: Config, m: Clmm, s: State, i: nat)
    requires i < |cfg.steps| && Fires(cfg, m, s, i)
    ensures Opened(m, Advance(cfg, m, s, i), cfg.steps[i], Left(ValueAt(m, s, cfg.steps[i]), cfg.txCost))
  {
    var o := Observed(cfg, m, s, i);
    RebalancedOpens(cfg, m, o, i);
    ValueIsPosition(m, s, cfg.steps[i]);
  }

  /** A rebalance takes the transaction cost out of the position and nothing else, up to the estimate's error. */
  lemma RebalanceKeepsValue(cfg: Config, m: Clmm, eps: real, i: nat)
    requires i < |cfg.steps| && FiresAt(cfg, m, i) && Faithful(m, eps) && cfg.steps[i].quoteUsd > 0.0
    ensures var p := cfg.steps[i];
            Near(ValueAt(m, Run(cfg, m, i + 1), p), Left(ValueAt(m, Run(cfg, m, i), p), cfg.txCost), eps)
  {
    var s, p := Run(cfg, m, i), cfg.steps[i];
    RunUnfolds(cfg, m, i + 1);
    FiringOpens(cfg, m, s, i);
    OpenedIsNear(m, eps, Advance(cfg, m, s, i), p, Left(ValueAt(m, s, p), cfg.txCost));
  }

  /** The first position is worth the capital, up to the estimate's error. */
  lemma OpeningKeepsValue(cfg: Config, m: Clmm, eps: real)
    requires cfg.steps != [] && Faithful(m, eps) && cfg.capital >= 0.0 && cfg.steps[0].quoteUsd > 0.0
    ensures Near(ValueAt(m, Run(cfg, m, 0), cfg.steps[0]), cfg.capital, eps)
  {
    assert Opened(m, Initial(cfg, m), cfg.steps[0], cfg.capital);
    OpenedIsNear(m, eps, Initial(cfg, m), cfg.steps[0], cfg.capital);
  }

  // ---------------------------------------------------------------------------------------
  // The report
  // ---------------------------------------------------------------------------------------

  /** The manual bounds apply: a static strategy and a proper positive range. */
  predicate Manual(cfg: Config) {
    cfg.strategy.Static? && cfg.manualBounds.Some? && 0.0 < cfg.manualBounds.value.0 < cfg.manualBounds.value.1
  }

  lemma Divided(a: real, b: real, q: real)
    requires q > 0.0
    ensures a / q * q == a && b / q * q == b
    ensures a / q > 0.0 <==> a > 0.0
    ensures b / q > a / q <==> b > a
  {
    var x, y := a / q, b / q;
    assert x * q == a && y * q == b;
    assert (y - x) * q == b - a;
  }

  /** Manual USD bounds are reported as given, unless the quote price is below its floor. */
  lemma ManualBoundsReported(cfg: Config, m: Clmm)
    requires cfg.steps != [] && Manual(cfg)
    ensures var r, bounds, quote := Result(cfg, m), cfg.manualBounds.value, cfg.steps[0].quoteUsd;
            if quote >= 0.000000000001 then r.0 == bounds.0 && r.1 == bounds.1
            else r.0 * 0.000000000001 == bounds.0 * quote && r.1 * 0.000000000001 == bounds.1 * quote
  {
    var bounds, quote := cfg.manualBounds.value, cfg.steps[0].quoteUsd;
    var q := Max(quote, 0.000000000001);
    Divided(bounds.0, bounds.1, q);
    assert InitialRange(cfg) == (bounds.0 / q, bounds.1 / q);
    Carried(bounds.0 / q, q, quote);
    Carried(bounds.1 / q, q, quote);
  }

  lemma Carried(a: real, q: real, quote: real)
    ensures (a * quote) * q == (a * q) * quote
  {
  }

  lemma AroundIs(c: real, width: real)
    ensures var r := Around(c, width / 2.0); r.0 + r.1 == 2.0 * c && r.1 - r.0 == width * c
  {
  }

  /** Any other range is reported around the first price in USD, with the width relative to it. */
  lemma CentredBoundsReported(cfg: Config, m: Clmm)
    requires cfg.steps != [] && !Manual(cfg)
    ensures var r, usd := Result(cfg, m), cfg.steps[0].priceAb * cfg.steps[0].quoteUsd;
            r.0 + r.1 == 2.0 * usd && r.1 - r.0 == cfg.width * usd
  {
    var c, quote := cfg.steps[0].priceAb, cfg.steps[0].quoteUsd;
    NotManual(cfg);
    AroundIs(c, cfg.width);
    var range := Around(c, cfg.width / 2.0);
    InUsd(range.0, range.1, c, cfg.width, quote);
  }

  lemma InUsd(lo: real, hi: real, c: real, width: real, quote: real)
    requires lo + hi == 2.0 * c && hi - lo == width * c
    ensures lo * quote + hi * quote == 2.0 * (c * quote) && hi * quote - lo * quote == width * (c * quote)
  {
    assert (lo + hi) * quote == lo * quote + hi * quote;
    assert (hi - lo) * quote == hi * quote - lo * quote;
    assert width * c * quote == width * (c * quote);
  }

  lemma NotManual(cfg: Config)
    requires cfg.steps != [] && !Manual(cfg)
    ensures InitialRange(cfg) == Around(cfg.steps[0].priceAb, cfg.width / 2.0)
  {
    if cfg.strategy.Static? && cfg.manualBounds.Some? {
      Divided(cfg.manualBounds.value.0, cfg.manualBounds.value.1, Max(cfg.steps[0].quoteUsd, 0.000000000001));
    }
  }

  /** How many of the first `n` steps rebalance. */
  function Firings(cfg: Config, m: Clmm, n: nat): nat
    requires cfg.steps != [] && n <= |cfg.steps|
  {
    if n == 0 then 0 else Firings(cfg, m, n - 1) + if FiresAt(cfg, m, n - 1) then 1 else 0
  }

  lemma CountStep(cfg: Config, m: Clmm, s: State, i: nat)
    requires i < |cfg.steps|
    ensures Advance(cfg, m, s, i).count == s.count + if Fires(cfg, m, s, i) then 1 else 0
  {
    StepFacts(cfg, m, s, i);
  }

  lemma {:induction false} CountIsFirings(cfg: Config, m: Clmm, n: nat)
    requires cfg.steps != [] && n <= |cfg.steps|
    ensures Run(cfg, m, n).count == Firings(cfg, m, n)
  {
    if n > 0 {
      var s, i := LastStep(cfg, m, n);
      CountIsFirings(cfg, m, i);
      CountStep(cfg, m, s, i);
    }
  }

  /** What every report has in common, and what it counts. */
  predicate Accounted(r: Summary, cfg: Config) {
    && r.finalPnl == r.finalValue - cfg.capital
    && r.vsHodl == r.finalValue - r.hodlValue && r.hodlValue == HodlValue(cfg)
    && r.totalSteps == |cfg.steps|
    && r.rebalanceCost == r.rebalances as real * cfg.txCost
  }

  lemma ReportIsAccounted(cfg: Config, m: Clmm)
    ensures Accounted(Result(cfg, m).2, cfg)
  {
    if cfg.steps != [] {
      CostIsCount(cfg, m, |cfg.steps|);
    }
  }

  /** Rebalances and fees of the report are those of the run. */
  lemma ReportCountsTheRun(cfg: Config, m: Clmm)
    requires cfg.steps != []
    ensures Result(cfg, m).2.rebalances == Firings(cfg, m, |cfg.steps|)
    ensures Result(cfg, m).2.totalFees == EarnedUpTo(cfg, m, |cfg.steps|)
  {
    CountIsFirings(cfg, m, |cfg.steps|);
    FeesAreEarned(cfg, m, |cfg.steps|);
  }

  /** Without a path nothing is gained, lost, counted or paid, and the range is around the given center. */
  lemma EmptyPathReport(cfg: Config, m: Clmm)
    requires cfg.steps == []
    ensures var r := Result(cfg, m);
            && r.0 + r.1 == 2.0 * cfg.center && r.1 - r.0 == cfg.width * cfg.center
            && r.2.finalValue == r.2.hodlValue == cfg.capital && r.2.finalIl == 0.0
            && r.2.totalFees == r.2.rebalanceCost == r.2.maxDrawdown == r.2.timeInRange == 0.0 && r.2.rebalances == 0
  {
    AroundIs(cfg.center, cfg.width);
  }
}
