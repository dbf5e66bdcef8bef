/**
 The backtest engine: one position replayed over a price path under one of nine strategies.

 `Decimal` and `f64` are modelled as `real`. The helpers that need square roots or logarithms
 (amounts from liquidity, liquidity from capital, Bollinger bands, price to tick) are the function
 fields of `Clmm`, so everything proved here holds for any such functions. The functions below are
 the specification; `RunSingle` is the loop with its local variables.
 */
module Backtest {
  import opened Options

  const U64_MAX: int := 0xFFFF_FFFF_FFFF_FFFF
  type u64 = x: int | 0 <= x <= 0xFFFF_FFFF_FFFF_FFFF

  function SatAdd(a: u64, b: u64): u64 { if a + b <= U64_MAX then a + b else U64_MAX }
  function SatSub(a: u64, b: u64): u64 { if a >= b then a - b else 0 }
  function SatMul(a: u64, b: u64): u64 { if a as int * b as int <= U64_MAX then a as int * b as int else U64_MAX }

  function Min(a: real, b: real): real { if b < a then b else a }
  function Max(a: real, b: real): real { if b > a then b else a }
  function Abs(a: real): real { if a < 0.0 then -a else a }

  // ---------------------------------------------------------------------------------------
  // Inputs
  // ---------------------------------------------------------------------------------------

  datatype Step = Step(
    priceUsd: real, priceAb: real, volumeUsd: real, quoteUsd: real, lpShare: real,
    activeLiquidity: Option<nat>, tick: Option<int>, ts: u64)

  datatype Strategy =
    | Static
    | OorRecenter
    | Threshold(pct: real, minHours: u64, immediate: bool)
    | Periodic(hours: u64)
    | PeriodicSteps(steps: u64)
    | IlLimit(maxIl: real, closeIl: Option<real>, grace: u64)
    | RetouchShift(offset: real)
    | Bollinger(window: nat, k: real, every: u64)
    | LastCandle(candleSteps: u64, every: u64)
    | LastCandleTime(candleSecs: u64, everySecs: u64)

  datatype Swap = Swap(blockTime: Option<int>, feeUsd: real, amountUsd: real, feeTier: real)

  datatype Clmm = Clmm(
    amounts: (nat, real, real, real) -> (real, real),
    estimate: (real, real, real, real, real, real) -> nat,
    bands: (seq<real>, real) -> Option<(real, real)>,
    tickOf: real -> int)

  datatype Config = Config(
    steps: seq<Step>,
    center: real,
    width: real,
    strategy: Strategy,
    capital: real,
    txCost: real,
    feeRate: real,
    poolLiquidity: Option<nat>,
    swaps: Option<seq<Swap>>,
    snapshotFees: Option<map<nat, real>>,
    manualBounds: Option<(real, real)>,
    useTick: bool)

  // ---------------------------------------------------------------------------------------
  // Swap fees by step
  // ---------------------------------------------------------------------------------------

  const STEP_SECONDS: int := 3600

  /** The step a swap is filed under, if it has a time and does not precede the path. */
  function StepOf(s: Swap, start: int): Option<nat> {
    if s.blockTime.Some? && s.blockTime.value >= start
    then Some((s.blockTime.value - start) / STEP_SECONDS)
    else None
  }

  function SwapsOfStep(swaps: seq<Swap>, start: int, i: nat): seq<Swap> {
    if swaps == [] then []
    else
      var rest := SwapsOfStep(swaps[..|swaps| - 1], start, i);
      if StepOf(swaps[|swaps| - 1], start) == Some(i) then rest + [swaps[|swaps| - 1]] else rest
  }

  function SwapFee(s: Swap): real { if s.feeUsd != 0.0 then s.feeUsd else s.amountUsd * s.feeTier }

  function SumFees(swaps: seq<Swap>): real {
    if swaps == [] then 0.0 else SumFees(swaps[..|swaps| - 1]) + SwapFee(swaps[|swaps| - 1])
  }

  method IndexSwapsByStep(swaps: seq<Swap>, steps: seq<Step>) returns (index: map<nat, seq<Swap>>)
    ensures steps == [] ==> index == map[]
    ensures steps != [] ==> forall i: nat ::
              if i in index then index[i] == SwapsOfStep(swaps, steps[0].ts, i) && index[i] != []
              else SwapsOfStep(swaps, steps[0].ts, i) == []
  {
    index := map[];
    if steps == [] {
      return;
    }
    var start := steps[0].ts;
    for n := 0 to |swaps|
      invariant forall i: nat ::
                  if i in index then index[i] == SwapsOfStep(swaps[..n], start, i) && index[i] != []
                  else SwapsOfStep(swaps[..n], start, i) == []
    {
      assert swaps[..n + 1][..n] == swaps[..n];
      var s := swaps[n];
      if s.blockTime.Some? {
        var delta := s.blockTime.value - start;
        if delta >= 0 {
          var idx := delta / STEP_SECONDS;
          index := index[idx := (if idx in index then index[idx] else []) + [s]];
        }
      }
    }
    assert swaps[..|swaps|] == swaps;
  }

  // ---------------------------------------------------------------------------------------
  // Ranges
  // ---------------------------------------------------------------------------------------

  function Around(c: real, half: real): (real, real) { (c * (1.0 - half), c * (1.0 + half)) }

  function InitialRange(cfg: Config): (real, real)
    requires cfg.steps != []
  {
    var first := cfg.steps[0];
    if cfg.strategy.Static? && cfg.manualBounds.Some? then
      var q := Max(first.quoteUsd, 0.000000000001);
      var lo, hi := cfg.manualBounds.value.0 / q, cfg.manualBounds.value.1 / q;
      if lo > 0.0 && hi > lo then (lo, hi) else Around(first.priceAb, cfg.width / 2.0)
    else Around(first.priceAb, cfg.width / 2.0)
  }

  predicate InRange(cfg: Config, m: Clmm, lower: real, upper: real, p: Step) {
    if cfg.useTick && p.tick.Some?
    then m.tickOf(Max(lower, 0.0)) <= p.tick.value < m.tickOf(Max(upper, 0.0))
    else lower <= p.priceAb <= upper
  }

  function RetouchRange(lower: real, upper: real, price: real, offset: real): (real, real) {
    var l := if price > upper then lower + (price - upper) else price;
    var u := if price > upper then price else upper - (lower - price);
    var shift := 1.0 + offset;
    if shift <= 0.0 then (l, u) else (l * shift, u * shift)
  }

  function Closes(steps: seq<Step>): seq<real> { seq(|steps|, i requires 0 <= i < |steps| => steps[i].priceAb) }

  function Sum(xs: seq<real>): real { if xs == [] then 0.0 else Sum(xs[..|xs| - 1]) + xs[|xs| - 1] }

  method SumOf(xs: seq<real>) returns (total: real)
    ensures total == Sum(xs)
  {
    total := 0.0;
    for n := 0 to |xs|
      invariant total == Sum(xs[..n])
    {
      assert xs[..n + 1][..n] == xs[..n];
      total := total + xs[n];
    }
    assert xs[..|xs|] == xs;
  }

  /** Lowest and highest price of a stretch of the path. */
  function Lowest(xs: seq<real>): real
    requires xs != []
  {
    if |xs| == 1 then xs[0] else Min(Lowest(xs[..|xs| - 1]), xs[|xs| - 1])
  }

  function Highest(xs: seq<real>): real
    requires xs != []
  {
    if |xs| == 1 then xs[0] else Max(Highest(xs[..|xs| - 1]), xs[|xs| - 1])
  }

  lemma {:induction false} LowestAndHighest(xs: seq<real>)
    requires xs != []
    ensures Lowest(xs) in xs && Highest(xs) in xs
    ensures forall x :: x in xs ==> Lowest(xs) <= x <= Highest(xs)
  {
    if |xs| > 1 {
      LowestAndHighest(xs[..|xs| - 1]);
      assert xs == xs[..|xs| - 1] + [xs[|xs| - 1]];
    }
  }

  method CandleBand(slice: seq<Step>) returns (lo: real, hi: real)
    requires slice != []
    ensures lo == Lowest(Closes(slice)) && hi == Highest(Closes(slice))
  {
    lo := slice[0].priceAb;
    hi := lo;
    ghost var xs := Closes(slice);
    for n := 1 to |slice|
      invariant lo == Lowest(xs[..n]) && hi == Highest(xs[..n])
    {
      BandOfNext(xs, n);
      lo := Min(lo, slice[n].priceAb);
      hi := Max(hi, slice[n].priceAb);
    }
    assert xs[..|slice|] == xs;
  }

  lemma BandOfNext(xs: seq<real>, n: nat)
    requires 0 < n < |xs|
    ensures Lowest(xs[..n + 1]) == Min(Lowest(xs[..n]), xs[n])
    ensures Highest(xs[..n + 1]) == Max(Highest(xs[..n]), xs[n])
  {
    assert xs[..n + 1][..n] == xs[..n];
  }

  /** Indices of the last candle of `candleSteps` steps that is complete at step `i`. */
  function LastClosedCandle(i: nat, candleSteps: nat): (r: Option<(nat, nat)>)
    ensures r.Some? ==> r.value.0 <= r.value.1 <= i
  {
    var cs := if candleSteps == 0 then 1 else candleSteps;
    var complete := (i + 1) / cs;
    if complete == 0 then None
    else
      CandleFits(i, cs);
      Some(((complete - 1) * cs, (complete - 1) * cs + cs - 1))
  }

  lemma CandleFits(i: nat, cs: nat)
    requires cs > 0 && (i + 1) / cs > 0
    ensures 0 <= ((i + 1) / cs - 1) * cs && ((i + 1) / cs - 1) * cs + cs - 1 <= i
  {
    assert (i + 1) / cs * cs <= i + 1;
  }

  /** The backward scan over the first `n` steps for timestamps in `[lo, hi)`. */
  function ScanBucket(steps: seq<Step>, n: nat, lo: int, hi: int, found: Option<(nat, nat)>): (r: Option<(nat, nat)>)
    requires n <= |steps|
    requires found.Some? ==> n <= found.value.0 <= found.value.1 < |steps|
    ensures r.Some? ==> r.value.0 <= r.value.1 < |steps|
    ensures found.None? && r.Some? ==> r.value.1 < n
    ensures found.Some? ==> r.Some? && r.value.1 == found.value.1
  {
    if n == 0 then found
    else
      var ts := steps[n - 1].ts;
      if ts >= hi then ScanBucket(steps, n - 1, lo, hi, found)
      else if ts < lo then found
      else ScanBucket(steps, n - 1, lo, hi, Some((n - 1, if found.Some? then found.value.1 else n - 1)))
  }

  /** Indices of the steps in the last wall-clock bucket closed at step `i`. */
  function LastClosedBucket(steps: seq<Step>, i: nat, candleSecs: u64): (r: Option<(nat, nat)>)
    requires i < |steps|
    ensures r.Some? ==> r.value.0 <= r.value.1 <= i
  {
    if candleSecs == 0 then None
    else
      var end := BucketEnd(steps[i].ts, candleSecs);
      if end < candleSecs then None
      else ScanBucket(steps, i + 1, end - candleSecs, end, None)
  }

  function BucketEnd(t: u64, candleSecs: u64): int
    requires candleSecs > 0
  {
    t as int / candleSecs as int * candleSecs as int
  }

  method FindClosedBucket(steps: seq<Step>, i: nat, candleSecs: u64) returns (r: Option<(nat, nat)>)
    requires i < |steps|
    ensures r == LastClosedBucket(steps, i, candleSecs)
  {
    if candleSecs == 0 {
      return None;
    }
    var end := BucketEnd(steps[i].ts, candleSecs);
    if end < candleSecs {
      return None;
    }
    var start := end - candleSecs;
    r := None;
    var n := i + 1;
    while n > 0
      invariant n <= i + 1 && (r.Some? ==> n <= r.value.0 <= r.value.1 <= i)
      invariant ScanBucket(steps, n, start, end, r) == ScanBucket(steps, i + 1, start, end, None)
    {
      var ts := steps[n - 1].ts;
      if ts < end && ts < start {
        break;
      }
      n := n - 1;
      if ts < end {
        r := Some((n, if r.Some? then r.value.1 else n));
      }
    }
  }

  /**
   The band of prices over the steps `stretch`; if that is not a proper range, half the width
   around its low (when asked for and positive) or its close; without a stretch, around the first price.
   */
  function StretchRange(cfg: Config, stretch: Option<(nat, nat)>, preferLow: bool): (real, real)
    requires cfg.steps != [] && (stretch.Some? ==> stretch.value.0 <= stretch.value.1 < |cfg.steps|)
  {
    if stretch.None? then Around(cfg.steps[0].priceAb, cfg.width / 2.0)
    else
      var slice := Closes(cfg.steps[stretch.value.0..stretch.value.1 + 1]);
      var lo, hi := Lowest(slice), Highest(slice);
      if lo > 0.0 && lo < hi then (lo, hi)
      else Around(if preferLow && lo > 0.0 then lo else cfg.steps[stretch.value.1].priceAb, cfg.width / 2.0)
  }

  /** The Bollinger window reaches back to the first step at most. */
  predicate WindowFits(cfg: Config, i: nat) { cfg.strategy.Bollinger? ==> i + 1 >= cfg.strategy.window }

  /** The range that a rebalance at step `i` opens. */
  function NewRange(cfg: Config, m: Clmm, lower: real, upper: real, i: nat): (real, real)
    requires i < |cfg.steps| && WindowFits(cfg, i)
  {
    var half := cfg.width / 2.0;
    var price := cfg.steps[i].priceAb;
    match cfg.strategy
    case RetouchShift(offset) => RetouchRange(lower, upper, price, offset)
    case Bollinger(window, k, _) =>
      var closes := Closes(cfg.steps[i + 1 - window..i + 1]);
      var band := m.bands(closes, k);
      if band.Some? then band.value
      else Around(Sum(closes) / (if |closes| == 0 then 1 else |closes|) as real, half)
    case LastCandle(candleSteps, _) => StretchRange(cfg, LastClosedCandle(i, candleSteps), true)
    case LastCandleTime(candleSecs, _) => StretchRange(cfg, LastClosedBucket(cfg.steps, i, candleSecs), false)
    case _ => Around(price, half)
  }

  // ---------------------------------------------------------------------------------------
  // Fees and value
  // ---------------------------------------------------------------------------------------

  /** Fees of the whole pool in step `i`. */
  function PoolFees(cfg: Config, i: nat): real
    requires i < |cfg.steps|
  {
    if cfg.swaps.Some? then SumFees(SwapsOfStep(cfg.swaps.value, cfg.steps[0].ts, i))
    else if cfg.snapshotFees.Some? then
      if i in cfg.snapshotFees.value then cfg.snapshotFees.value[i] else 0.0
    else cfg.steps[i].volumeUsd * cfg.feeRate
  }

  datatype FeeShareModel = LegacyLpShare | LiquidityShare(position: nat, pool: nat)

  function ModelShare(model: FeeShareModel, p: Step): real {
    match model
    case LegacyLpShare => p.lpShare
    case LiquidityShare(position, pool) =>
      if pool == 0 || position == 0 then 0.0 else Min(position as real / pool as real, 1.0)
  }

  /** The share of an in-range step. */
  function FeeShare(cfg: Config, liquidity: nat, model: FeeShareModel, p: Step): real {
    if cfg.snapshotFees.Some? && p.activeLiquidity.Some? && p.activeLiquidity.value > 0
    then Min(liquidity as real / p.activeLiquidity.value as real, 1.0)
    else ModelShare(model, p)
  }

  function ShareModel(cfg: Config, liquidity: nat): FeeShareModel {
    if cfg.poolLiquidity.Some? && cfg.poolLiquidity.value > 0
    then LiquidityShare(liquidity, cfg.poolLiquidity.value)
    else LegacyLpShare
  }

  function PositionValue(m: Clmm, liquidity: nat, lower: real, upper: real, p: Step): real {
    var held := m.amounts(liquidity, lower, p.priceAb, upper);
    held.0 * p.priceUsd + held.1 * p.quoteUsd
  }

  /** Half the capital in each token at the first prices. */
  function HodlAmounts(cfg: Config): (real, real) {
    if cfg.steps == [] then (0.0, 0.0)
    else
      var first := cfg.steps[0];
      if first.priceUsd <= 0.0 || first.quoteUsd <= 0.0 then (0.0, 0.0)
      else (cfg.capital / 2.0 / first.priceUsd, cfg.capital / 2.0 / first.quoteUsd)
  }

  function HodlValue(cfg: Config): real {
    if cfg.steps == [] then cfg.capital
    else
      var last := cfg.steps[|cfg.steps| - 1];
      HodlAmounts(cfg).0 * last.priceUsd + HodlAmounts(cfg).1 * Max(last.quoteUsd, 0.0)
  }

  // ---------------------------------------------------------------------------------------
  // The run
  // ---------------------------------------------------------------------------------------

  datatype State = State(
    lower: real, upper: real, liquidity: nat, model: FeeShareModel,
    fees: real, cost: real, count: nat,
    sinceSteps: nat, sinceSecs: u64, prevTs: Option<u64>,
    inRangeSteps: nat, armed: bool,
    peak: real, maxDrawdown: real)

  function Initial(cfg: Config, m: Clmm): State
    requires cfg.steps != []
  {
    var range := InitialRange(cfg);
    var liquidity := InitialLiquidity(cfg, m);
    State(range.0, range.1, liquidity, ShareModel(cfg, liquidity), 0.0, 0.0, 0, 0, 0, None, 0, true, cfg.capital, 0.0)
  }

  /** A price or bound in quote units, in USD. */
  function Usd(ab: real, quoteUsd: real): real { ab * quoteUsd }

  function InitialLiquidity(cfg: Config, m: Clmm): nat
    requires cfg.steps != []
  {
    var range := InitialRange(cfg);
    var first := cfg.steps[0];
    m.estimate(Usd(range.0, first.quoteUsd), Usd(range.1, first.quoteUsd), cfg.capital,
               first.quoteUsd, first.priceAb, first.priceUsd)
  }

  /** The state after the clock of step `i` has been read, the fees booked and the equity marked. */
  function Observed(cfg: Config, m: Clmm, s: State, i: nat): State
    requires i < |cfg.steps|
  {
    var p := cfg.steps[i];
    var inRange := InRange(cfg, m, s.lower, s.upper, p);
    var fees := s.fees + if inRange then PoolFees(cfg, i) * FeeShare(cfg, s.liquidity, s.model, p) else 0.0;
    var equity := PositionValue(m, s.liquidity, s.lower, s.upper, p) + fees;
    var peak := if equity > s.peak then equity else s.peak;
    s.(
      sinceSecs := if s.prevTs.Some? then SatAdd(s.sinceSecs, SatSub(p.ts, s.prevTs.value)) else s.sinceSecs,
      prevTs := Some(p.ts),
      sinceSteps := s.sinceSteps + 1,
      inRangeSteps := s.inRangeSteps + (if inRange then 1 else 0),
      armed := inRange || s.armed,
      fees := fees,
      peak := peak,
      maxDrawdown :=
        if peak > 0.0 && (peak - equity) / peak > s.maxDrawdown then (peak - equity) / peak else s.maxDrawdown)
  }

  /** Underperformance against holding, before fees and rebalance costs, relative to the capital. */
  function IlNow(cfg: Config, m: Clmm, o: State, p: Step): real {
    var hodl := HodlAmounts(cfg).0 * p.priceUsd + HodlAmounts(cfg).1 * p.quoteUsd;
    if cfg.capital > 0.0
    then (PositionValue(m, o.liquidity, o.lower, o.upper, p) + o.cost - hodl) / cfg.capital
    else 0.0
  }

  /** Whether the strategy asks for a rebalance at step `i` in the observed state `o`. */
  predicate Triggered(cfg: Config, m: Clmm, o: State, i: nat)
    requires i < |cfg.steps|
  {
    var p := cfg.steps[i];
    var inRange := InRange(cfg, m, o.lower, o.upper, p);
    match cfg.strategy
    case Static => false
    case OorRecenter => !inRange
    case Threshold(pct, minHours, immediate) =>
      if !inRange then immediate || o.sinceSecs >= SatMul(minHours, 3600)
      else
        var mid := (o.lower + o.upper) / 2.0;
        mid != 0.0 && Abs((p.priceAb - mid) / mid) >= pct
    case Periodic(hours) => o.sinceSecs >= SatMul(hours, 3600)
    case PeriodicSteps(n) => o.sinceSteps >= n
    case IlLimit(maxIl, closeIl, grace) =>
      if !inRange then true
      else if o.sinceSteps <= grace then false
      else
        var il := Abs(IlNow(cfg, m, o, p));
        il >= maxIl || il >= closeIl.GetOr(maxIl)
    case RetouchShift(_) => !inRange && o.armed
    case Bollinger(window, _, every) => o.sinceSteps >= every && i + 1 >= window
    case LastCandle(_, every) => o.sinceSteps >= every
    case LastCandleTime(_, everySecs) => o.sinceSecs >= everySecs
  }

  /** Close the position at step `i`, pay the transaction cost and open the new range. */
  function Rebalanced(cfg: Config, m: Clmm, o: State, i: nat): State
    requires i < |cfg.steps| && WindowFits(cfg, i)
  {
    var p := cfg.steps[i];
    var q := p.quoteUsd;
    var capital := Max(PositionValue(m, o.liquidity, o.lower, o.upper, p) - cfg.txCost, 0.0);
    var range := NewRange(cfg, m, o.lower, o.upper, i);
    var liquidity := m.estimate(Usd(range.0, q), Usd(range.1, q), capital, q, p.priceAb, p.priceUsd);
    o.(
      lower := range.0, upper := range.1, liquidity := liquidity,
      model := if cfg.poolLiquidity.Some? && cfg.poolLiquidity.value > 0 then ShareModel(cfg, liquidity) else o.model,
      cost := o.cost + cfg.txCost, count := o.count + 1,
      sinceSteps := 0, sinceSecs := 0,
      armed := if cfg.strategy.RetouchShift? then false else o.armed)
  }

  /** A rebalance happens when the strategy asks for it and there is liquidity to move. */
  predicate Fires(cfg: Config, m: Clmm, s: State, i: nat)
    requires i < |cfg.steps|
  {
    Triggered(cfg, m, Observed(cfg, m, s, i), i) && s.liquidity > 0
  }

  function Advance(cfg: Config, m: Clmm, s: State, i: nat): State
    requires i < |cfg.steps|
  {
    var o := Observed(cfg, m, s, i);
    if Fires(cfg, m, s, i) then Rebalanced(cfg, m, o, i) else o
  }

  /** The state after the first `n` steps. */
  function Run(cfg: Config, m: Clmm, n: nat): State
    requires cfg.steps != [] && n <= |cfg.steps|
  {
    if n == 0 then Initial(cfg, m) else Advance(cfg, m, Run(cfg, m, n - 1), n - 1)
  }

  /** A rebalance at step `i` of the run. */
  predicate FiresAt(cfg: Config, m: Clmm, i: nat)
    requires cfg.steps != [] && i < |cfg.steps|
  {
    Fires(cfg, m, Run(cfg, m, i), i)
  }

  datatype Summary = Summary(
    totalSteps: nat, finalValue: real, finalPnl: real, finalIl: real, totalFees: real,
    timeInRange: real, rebalances: nat, rebalanceCost: real, maxDrawdown: real,
    hodlValue: real, vsHodl: real)

  function Summarised(cfg: Config, m: Clmm, s: State): Summary
    requires cfg.steps != []
  {
    var position := PositionValue(m, s.liquidity, s.lower, s.upper, cfg.steps[|cfg.steps| - 1]);
    var finalValue := position + s.fees;
    Summary(
      |cfg.steps|, finalValue, finalValue - cfg.capital,
      if cfg.capital > 0.0 then (position + s.cost - HodlValue(cfg)) / cfg.capital else 0.0,
      s.fees, s.inRangeSteps as real / |cfg.steps| as real, s.count, s.cost, s.maxDrawdown,
      HodlValue(cfg), finalValue - HodlValue(cfg))
  }

  function EmptySummary(capital: real): Summary {
    Summary(0, capital, 0.0, 0.0, 0.0, 0.0, 0, 0.0, 0.0, capital, 0.0)
  }

  /** What a whole backtest reports: the initial range in USD and the summary. */
  function Result(cfg: Config, m: Clmm): (real, real, Summary) {
    if cfg.steps == [] then
      (Around(cfg.center, cfg.width / 2.0).0, Around(cfg.center, cfg.width / 2.0).1, EmptySummary(cfg.capital))
    else
      var range := InitialRange(cfg);
      var q := cfg.steps[0].quoteUsd;
      (Usd(range.0, q), Usd(range.1, q), Summarised(cfg, m, Run(cfg, m, |cfg.steps|)))
  }

  // ---------------------------------------------------------------------------------------
  // The loop
  // ---------------------------------------------------------------------------------------

  method SumFeesLoop(swaps: seq<Swap>) returns (total: real)
    ensures total == SumFees(swaps)
  {
    total := 0.0;
    for n := 0 to |swaps|
      invariant total == SumFees(swaps[..n])
    {
      assert swaps[..n + 1][..n] == swaps[..n];
      total := total + SwapFee(swaps[n]);
    }
    assert swaps[..|swaps|] == swaps;
  }

  ghost predicate IndexFits(cfg: Config, index: map<nat, seq<Swap>>)
    requires cfg.steps != []
  {
    cfg.swaps.Some? ==> forall j: nat ::
      if j in index then index[j] == SwapsOfStep(cfg.swaps.value, cfg.steps[0].ts, j)
      else SwapsOfStep(cfg.swaps.value, cfg.steps[0].ts, j) == []
  }

  /** Pool fees of step `i` from the swap index, the snapshot map or the candle volume. */
  method ReadPoolFees(cfg: Config, index: map<nat, seq<Swap>>, i: nat) returns (fees: real)
    requires i < |cfg.steps| && IndexFits(cfg, index)
    ensures fees == PoolFees(cfg, i)
  {
    if cfg.swaps.Some? {
      fees := 0.0;
      if i in index {
        fees := SumFeesLoop(index[i]);
      }
    } else if cfg.snapshotFees.Some? {
      fees := if i in cfg.snapshotFees.value then cfg.snapshotFees.value[i] else 0.0;
    } else {
      fees := cfg.steps[i].volumeUsd * cfg.feeRate;
    }
  }

  /** The new range, with the scans of the candle strategies as loops. */
  method OpenRange(cfg: Config, m: Clmm, lower: real, upper: real, i: nat) returns (r: (real, real))
    requires i < |cfg.steps| && WindowFits(cfg, i)
    ensures r == NewRange(cfg, m, lower, upper, i)
  {
    var half, price := cfg.width / 2.0, cfg.steps[i].priceAb;
    match cfg.strategy {
      case RetouchShift(offset) =>
        r := RetouchRange(lower, upper, price, offset);
      case Bollinger(window, k, _) =>
        var closes := Closes(cfg.steps[i + 1 - window..i + 1]);
        var band := m.bands(closes, k);
        if band.Some? {
          r := band.value;
        } else {
          var total := SumOf(closes);
          r := Around(total / (if |closes| == 0 then 1 else |closes|) as real, half);
        }
      case LastCandle(candleSteps, _) =>
        r := OpenStretch(cfg, LastClosedCandle(i, candleSteps), true);
      case LastCandleTime(candleSecs, _) =>
        var bucket := FindClosedBucket(cfg.steps, i, candleSecs);
        r := OpenStretch(cfg, bucket, false);
      case _ =>
        r := Around(price, half);
    }
  }

  method OpenStretch(cfg: Config, stretch: Option<(nat, nat)>, preferLow: bool) returns (r: (real, real))
    requires cfg.steps != [] && (stretch.Some? ==> stretch.value.0 <= stretch.value.1 < |cfg.steps|)
    ensures r == StretchRange(cfg, stretch, preferLow)
  {
    if stretch.None? {
      return Around(cfg.steps[0].priceAb, cfg.width / 2.0);
    }
    var lo, hi := CandleBand(cfg.steps[stretch.value.0..stretch.value.1 + 1]);
    if lo > 0.0 && lo < hi {
      return (lo, hi);
    }
    r := Around(if preferLow && lo > 0.0 then lo else cfg.steps[stretch.value.1].priceAb, cfg.width / 2.0);
  }

  /** Book step `i`: clock, in-range count, fees and the equity curve. */
  method Observe(cfg: Config, m: Clmm, index: map<nat, seq<Swap>>, s: State, i: nat) returns (o: State)
    requires i < |cfg.steps| && IndexFits(cfg, index)
    ensures o == Observed(cfg, m, s, i)
  {
    o := s;
    var p := cfg.steps[i];
    if o.prevTs.Some? {
      o := o.(sinceSecs := SatAdd(o.sinceSecs, SatSub(p.ts, o.prevTs.value)));
    }
    o := o.(prevTs := Some(p.ts), sinceSteps := o.sinceSteps + 1);
    var poolFees := ReadPoolFees(cfg, index, i);
    if InRange(cfg, m, o.lower, o.upper, p) {
      o := o.(inRangeSteps := o.inRangeSteps + 1, armed := true,
              fees := o.fees + poolFees * FeeShare(cfg, o.liquidity, o.model, p));
    }
    var equity := PositionValue(m, o.liquidity, o.lower, o.upper, p) + o.fees;
    if equity > o.peak {
      o := o.(peak := equity);
    }
    if o.peak > 0.0 {
      var drawdown := (o.peak - equity) / o.peak;
      if drawdown > o.maxDrawdown {
        o := o.(maxDrawdown := drawdown);
      }
    }
  }

  /** Pay the transaction cost and reopen the position at step `i`. */
  method Rebalance(cfg: Config, m: Clmm, o: State, i: nat) returns (s: State)
    requires i < |cfg.steps| && WindowFits(cfg, i)
    ensures s == Rebalanced(cfg, m, o, i)
  {
    var p := cfg.steps[i];
    var capital := Max(PositionValue(m, o.liquidity, o.lower, o.upper, p) - cfg.txCost, 0.0);
    s := o.(cost := o.cost + cfg.txCost, count := o.count + 1, sinceSteps := 0, sinceSecs := 0);
    var range := OpenRange(cfg, m, o.lower, o.upper, i);
    s := s.(lower := range.0, upper := range.1);
    if cfg.strategy.RetouchShift? {
      s := s.(armed := false);
    }
    s := s.(liquidity := m.estimate(Usd(s.lower, p.quoteUsd), Usd(s.upper, p.quoteUsd), capital,
                                    p.quoteUsd, p.priceAb, p.priceUsd));
    if cfg.poolLiquidity.Some? && cfg.poolLiquidity.value > 0 {
      s := s.(model := LiquidityShare(s.liquidity, cfg.poolLiquidity.value));
    }
  }

  /** One turn of the loop. */
  method TakeStep(cfg: Config, m: Clmm, index: map<nat, seq<Swap>>, s: State, i: nat) returns (s': State)
    requires i < |cfg.steps| && IndexFits(cfg, index)
    ensures s' == Advance(cfg, m, s, i)
  {
    s' := Observe(cfg, m, index, s, i);
    if Triggered(cfg, m, s', i) && s'.liquidity > 0 {
      s' := Rebalance(cfg, m, s', i);
    }
  }

  lemma RunUnfolds(cfg: Config, m: Clmm, n: nat)
    requires 0 < n <= |cfg.steps|
    ensures Run(cfg, m, n) == Advance(cfg, m, Run(cfg, m, n - 1), n - 1)
  {
  }

  /** The state before the last of `n` steps, and that step. */
  lemma LastStep(cfg: Config, m: Clmm, n: nat) returns (s: State, i: nat)
    requires 0 < n <= |cfg.steps|
    ensures i == n - 1 && s == Run(cfg, m, i) && Run(cfg, m, n) == Advance(cfg, m, s, i)
  {
    i := n - 1;
    s := Run(cfg, m, i);
  }

  method BuildIndex(cfg: Config) returns (index: map<nat, seq<Swap>>)
    requires cfg.steps != []
    ensures IndexFits(cfg, index)
  {
    index := map[];
    if cfg.swaps.Some? {
      index := IndexSwapsByStep(cfg.swaps.value, cfg.steps);
    }
  }

  method RunPath(cfg: Config, m: Clmm) returns (s: State)
    requires cfg.steps != []
    ensures s == Run(cfg, m, |cfg.steps|)
  {
    s := Initial(cfg, m);
    var index := BuildIndex(cfg);
    var i := 0;
    while i < |cfg.steps|
      invariant i <= |cfg.steps| && s == Run(cfg, m, i)
    {
      s := TakeStep(cfg, m, index, s, i);
      i := i + 1;
      RunUnfolds(cfg, m, i);
    }
  }

  method RunSingle(cfg: Config, m: Clmm) returns (lowerUsd: real, upperUsd: real, summary: Summary)
    ensures (lowerUsd, upperUsd, summary) == Result(cfg, m)
  {
    if cfg.steps == [] {
      var range := Around(cfg.center, cfg.width / 2.0);
      return range.0, range.1, EmptySummary(cfg.capital);
    }
    var range := InitialRange(cfg);
    lowerUsd, upperUsd := Usd(range.0, cfg.steps[0].quoteUsd), Usd(range.1, cfg.steps[0].quoteUsd);
    var final := RunPath(cfg, m);
    summary := Summarised(cfg, m, final);
  }
}
