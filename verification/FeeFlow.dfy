/** Where the fees of a run come from, and how they grow with the range. */
module FeeFlow {
  import opened Options
  import opened Backtest
  import opened BacktestRuns
  import opened Retouch
  import Buckets

  // ---------------------------------------------------------------------------------------
  // The fees of a run, step by step
  // ---------------------------------------------------------------------------------------

  /** What step `i` earns: the pool's fees times the share, if the price is in range. */
  function Earned(cfg: Config, m: Clmm, s: State, i: nat): real
    requires i < |cfg.steps|
  {
    var p := cfg.steps[i];
    if InRange(cfg, m, s.lower, s.upper, p) then PoolFees(cfg, i) * FeeShare(cfg, s.liquidity, s.model, p) else 0.0
  }

  function EarnedUpTo(cfg: Config, m: Clmm, n: nat): real
    requires cfg.steps != [] && n <= |cfg.steps|
  {
    if n == 0 then 0.0 else EarnedUpTo(cfg, m, n - 1) + Earned(cfg, m, Run(cfg, m, n - 1), n - 1)
  }

  function InRangeCount(cfg: Config, m: Clmm, n: nat): (k: nat)
    requires cfg.steps != [] && n <= |cfg.steps|
    ensures k <= n
  {
    if n == 0 then 0 else InRangeCount(cfg, m, n - 1) + if InRangeAt(cfg, m, n - 1) then 1 else 0
  }

  lemma EarnStep(cfg: Config, m: Clmm, s: State, i: nat)
    requires i < |cfg.steps|
    ensures Advance(cfg, m, s, i).fees == s.fees + Earned(cfg, m, s, i)
  {
  }

  /** The fees of a run are the sum of what its in-range steps earn; rebalances never touch them. */
  lemma {:induction false} FeesAreEarned(cfg: Config, m: Clmm, n: nat)
    requires cfg.steps != [] && n <= |cfg.steps|
    ensures Run(cfg, m, n).fees == EarnedUpTo(cfg, m, n)
  {
    if n > 0 {
      var s, i := LastStep(cfg, m, n);
      FeesAreEarned(cfg, m, i);
      EarnStep(cfg, m, s, i);
    }
  }

  lemma {:induction false} InRangeStepsCounted(cfg: Config, m: Clmm, n: nat)
    requires cfg.steps != [] && n <= |cfg.steps|
    ensures Run(cfg, m, n).inRangeSteps == InRangeCount(cfg, m, n)
  {
    if n > 0 {
      var s, i := LastStep(cfg, m, n);
      InRangeStepsCounted(cfg, m, i);
      CountStep(cfg, m, s, i);
    }
  }

  lemma CountStep(cfg: Config, m: Clmm, s: State, i: nat)
    requires i < |cfg.steps|
    ensures Advance(cfg, m, s, i).inRangeSteps
            == s.inRangeSteps + if InRange(cfg, m, s.lower, s.upper, cfg.steps[i]) then 1 else 0
  {
  }

  /** The reported time in range is the fraction of in-range steps. */
  lemma TimeInRange(cfg: Config, m: Clmm)
    requires cfg.steps != []
    ensures var t := Result(cfg, m).2.timeInRange;
            t == InRangeCount(cfg, m, |cfg.steps|) as real / |cfg.steps| as real && 0.0 <= t <= 1.0
  {
    InRangeStepsCounted(cfg, m, |cfg.steps|);
    Fraction(InRangeCount(cfg, m, |cfg.steps|), |cfg.steps|);
  }

  lemma Fraction(k: nat, n: nat)
    requires 0 < n && k <= n
    ensures 0.0 <= k as real / n as real <= 1.0
  {
    var q := k as real / n as real;
    assert q * n as real == k as real;
  }

  // ---------------------------------------------------------------------------------------
  // Conservation of swap fees
  // ---------------------------------------------------------------------------------------

  function PoolUpTo(cfg: Config, n: nat): real
    requires n <= |cfg.steps|
  {
    if n == 0 then 0.0 else PoolUpTo(cfg, n - 1) + PoolFees(cfg, n - 1)
  }

  /** Shares are proportions. */
  predicate SharesProper(steps: seq<Step>) {
    forall i :: 0 <= i < |steps| ==> 0.0 <= steps[i].lpShare <= 1.0
  }

  predicate SharesNotNegative(steps: seq<Step>) { forall i :: 0 <= i < |steps| ==> steps[i].lpShare >= 0.0 }

  predicate PoolFeesProper(cfg: Config) {
    forall i :: 0 <= i < |cfg.steps| ==> PoolFees(cfg, i) >= 0.0
  }

  lemma ShareIsProportion(cfg: Config, liquidity: nat, model: FeeShareModel, p: Step)
    requires 0.0 <= p.lpShare <= 1.0
    ensures 0.0 <= FeeShare(cfg, liquidity, model, p) <= 1.0
  {
  }

  lemma PartOf(a: real, share: real)
    requires a >= 0.0 && 0.0 <= share <= 1.0
    ensures 0.0 <= a * share <= a
  {
  }

  lemma EarnedAtMostPool(cfg: Config, m: Clmm, s: State, i: nat)
    requires i < |cfg.steps| && SharesProper(cfg.steps) && PoolFees(cfg, i) >= 0.0
    ensures 0.0 <= Earned(cfg, m, s, i) <= PoolFees(cfg, i)
  {
    var p := cfg.steps[i];
    if InRange(cfg, m, s.lower, s.upper, p) {
      var pool, share := PoolFees(cfg, i), FeeShare(cfg, s.liquidity, s.model, p);
      ShareIsProportion(cfg, s.liquidity, s.model, p);
      PartOf(pool, share);
      assert Earned(cfg, m, s, i) == pool * share;
    }
  }

  /** No strategy earns more than the pool. */
  lemma {:induction false} EarnedWithinPool(cfg: Config, m: Clmm, n: nat)
    requires cfg.steps != [] && n <= |cfg.steps| && SharesProper(cfg.steps) && PoolFeesProper(cfg)
    ensures 0.0 <= EarnedUpTo(cfg, m, n) <= PoolUpTo(cfg, n)
  {
    if n > 0 {
      var i: nat := n - 1;
      EarnedWithinPool(cfg, m, i);
      EarnedAtMostPool(cfg, m, Run(cfg, m, i), i);
    }
  }

  /** Fees of the swaps with a time in the first `n` steps of the path. */
  function WindowFees(swaps: seq<Swap>, start: int, n: nat): real {
    if swaps == [] then 0.0
    else
      var s := swaps[|swaps| - 1];
      WindowFees(swaps[..|swaps| - 1], start, n) +
      if s.blockTime.Some? && start <= s.blockTime.value < start + 3600 * n then SwapFee(s) else 0.0
  }

  lemma SwapInStep(s: Swap, start: int, n: nat)
    ensures (s.blockTime.Some? && start <= s.blockTime.value < start + STEP_SECONDS * (n + 1))
            <==> (s.blockTime.Some? && start <= s.blockTime.value < start + 3600 * n)
                 || StepOf(s, start) == Some(n)
    ensures StepOf(s, start) == Some(n) ==>
              !(s.blockTime.Some? && start <= s.blockTime.value < start + 3600 * n)
  {
  }

  /** Every swap of the window is in exactly one bucket, and no other swap is in any. */
  lemma {:induction false} OneMoreBucket(swaps: seq<Swap>, start: int, n: nat)
    ensures WindowFees(swaps, start, n + 1) == WindowFees(swaps, start, n) + SumFees(SwapsOfStep(swaps, start, n))
  {
    if swaps != [] {
      var before, s := swaps[..|swaps| - 1], swaps[|swaps| - 1];
      OneMoreBucket(before, start, n);
      SwapInStep(s, start, n);
      var bucket := SwapsOfStep(before, start, n);
      assert (bucket + [s])[..|bucket|] == bucket;
    }
  }

  lemma {:induction false} EmptyWindow(swaps: seq<Swap>, start: int)
    ensures WindowFees(swaps, start, 0) == 0.0
  {
    if swaps != [] {
      EmptyWindow(swaps[..|swaps| - 1], start);
    }
  }

  /** The buckets read by a run hold exactly the fees of the swaps in [start, start + 3600 * len). */
  lemma {:induction false} BucketsConserve(cfg: Config, n: nat)
    requires cfg.steps != [] && n <= |cfg.steps| && cfg.swaps.Some?
    ensures PoolUpTo(cfg, n) == WindowFees(cfg.swaps.value, cfg.steps[0].ts, n)
  {
    if n == 0 {
      EmptyWindow(cfg.swaps.value, cfg.steps[0].ts);
    } else {
      BucketsConserve(cfg, n - 1);
      OneMoreBucket(cfg.swaps.value, cfg.steps[0].ts, n - 1);
    }
  }

  lemma {:induction false} SumNotNegative(swaps: seq<Swap>)
    requires forall i :: 0 <= i < |swaps| ==> SwapFee(swaps[i]) >= 0.0
    ensures SumFees(swaps) >= 0.0
  {
    if swaps != [] {
      SumNotNegative(swaps[..|swaps| - 1]);
    }
  }

  lemma {:induction false} BucketsFromSwaps(swaps: seq<Swap>, start: int, i: nat)
    ensures forall k :: 0 <= k < |SwapsOfStep(swaps, start, i)| ==> SwapsOfStep(swaps, start, i)[k] in swaps
  {
    if swaps != [] {
      BucketsFromSwaps(swaps[..|swaps| - 1], start, i);
    }
  }

  /** The position never earns more than the swaps of its window paid. */
  lemma SwapFeesConserved(cfg: Config, m: Clmm)
    requires cfg.steps != [] && cfg.swaps.Some? && SharesProper(cfg.steps)
    requires forall s :: s in cfg.swaps.value ==> SwapFee(s) >= 0.0
    ensures 0.0 <= Result(cfg, m).2.totalFees <= WindowFees(cfg.swaps.value, cfg.steps[0].ts, |cfg.steps|)
  {
    var swaps, start := cfg.swaps.value, cfg.steps[0].ts;
    forall i | 0 <= i < |cfg.steps|
      ensures PoolFees(cfg, i) >= 0.0
    {
      BucketsFromSwaps(swaps, start, i);
      SumNotNegative(SwapsOfStep(swaps, start, i));
    }
    FeesAreEarned(cfg, m, |cfg.steps|);
    EarnedWithinPool(cfg, m, |cfg.steps|);
    BucketsConserve(cfg, |cfg.steps|);
  }

  // ---------------------------------------------------------------------------------------
  // Fee realism
  // ---------------------------------------------------------------------------------------

  /** `fee_realism`: the fees of the first `n` steps if every one of them were in range. */
  function ExpectedFees(steps: seq<Step>, feeRate: real, n: nat): real
    requires n <= |steps|
  {
    WeightedVolume(steps, n) * feeRate
  }

  function WeightedVolume(steps: seq<Step>, n: nat): real
    requires n <= |steps|
  {
    if n == 0 then 0.0 else WeightedVolume(steps, n - 1) + steps[n - 1].volumeUsd * steps[n - 1].lpShare
  }

  /** Fees come from candle volume and the share from the step. */
  predicate CandleFees(cfg: Config) { cfg.swaps.None? && cfg.snapshotFees.None? && RangeFreeShare(cfg) }

  lemma Regroup(volume: real, rate: real, share: real)
    ensures volume * rate * share == volume * share * rate
  {
  }

  /** What a step earns in range. */
  function FullFees(p: Step, feeRate: real): real { p.volumeUsd * feeRate * p.lpShare }

  lemma ExpectedNext(steps: seq<Step>, feeRate: real, i: nat)
    requires i < |steps|
    ensures ExpectedFees(steps, feeRate, i + 1)
            == ExpectedFees(steps, feeRate, i) + FullFees(steps[i], feeRate)
  {
    var w, x := WeightedVolume(steps, i), steps[i].volumeUsd * steps[i].lpShare;
    assert (w + x) * feeRate == w * feeRate + x * feeRate;
    Regroup(steps[i].volumeUsd, feeRate, steps[i].lpShare);
  }

  predicate ModelCurrent(cfg: Config, s: State) { s.model == ShareModel(cfg, s.liquidity) }

  lemma ModelStep(cfg: Config, m: Clmm, s: State, i: nat)
    requires i < |cfg.steps| && ModelCurrent(cfg, s)
    ensures ModelCurrent(cfg, Advance(cfg, m, s, i))
  {
    StepFacts(cfg, m, s, i);
  }

  /** The share model always speaks of the current liquidity. */
  lemma {:induction false} ModelAlwaysCurrent(cfg: Config, m: Clmm, n: nat)
    requires cfg.steps != [] && n <= |cfg.steps|
    ensures ModelCurrent(cfg, Run(cfg, m, n))
  {
    if n > 0 {
      var s, i := LastStep(cfg, m, n);
      ModelAlwaysCurrent(cfg, m, i);
      ModelStep(cfg, m, s, i);
    }
  }

  /** Simulated fees never exceed the expected ones, and meet them when no step is out of range. */
  lemma {:induction false} WithinRealism(cfg: Config, m: Clmm, n: nat)
    requires cfg.steps != [] && n <= |cfg.steps| && CandleFees(cfg) && cfg.feeRate >= 0.0 && SharesProper(cfg.steps)
    requires forall i :: 0 <= i < |cfg.steps| ==> cfg.steps[i].volumeUsd >= 0.0
    ensures EarnedUpTo(cfg, m, n) <= ExpectedFees(cfg.steps, cfg.feeRate, n)
    ensures InRangeCount(cfg, m, n) == n ==> EarnedUpTo(cfg, m, n) == ExpectedFees(cfg.steps, cfg.feeRate, n)
  {
    if n > 0 {
      var i: nat := n - 1;
      WithinRealism(cfg, m, i);
      ExpectedNext(cfg.steps, cfg.feeRate, i);
      RealismAt(cfg, m, i);
    }
  }

  lemma RealismAt(cfg: Config, m: Clmm, i: nat)
    requires i < |cfg.steps| && CandleFees(cfg)
    requires cfg.feeRate >= 0.0 && cfg.steps[i].volumeUsd >= 0.0 && cfg.steps[i].lpShare >= 0.0
    ensures Earned(cfg, m, Run(cfg, m, i), i) <= FullFees(cfg.steps[i], cfg.feeRate)
    ensures InRangeAt(cfg, m, i) ==> Earned(cfg, m, Run(cfg, m, i), i) == FullFees(cfg.steps[i], cfg.feeRate)
  {
    ModelAlwaysCurrent(cfg, m, i);
    CandleEarned(cfg, m, Run(cfg, m, i), i);
    FullFeesNotNegative(cfg.steps[i], cfg.feeRate);
  }

  lemma CandleEarned(cfg: Config, m: Clmm, s: State, i: nat)
    requires i < |cfg.steps| && CandleFees(cfg) && ModelCurrent(cfg, s)
    ensures Earned(cfg, m, s, i) ==
            if InRange(cfg, m, s.lower, s.upper, cfg.steps[i]) then FullFees(cfg.steps[i], cfg.feeRate) else 0.0
  {
  }

  lemma FullFeesNotNegative(p: Step, feeRate: real)
    requires feeRate >= 0.0 && p.volumeUsd >= 0.0 && p.lpShare >= 0.0
    ensures FullFees(p, feeRate) >= 0.0
  {
    Product(p.volumeUsd, feeRate);
    Product(p.volumeUsd * feeRate, p.lpShare);
  }

  // ---------------------------------------------------------------------------------------
  // Wider static ranges
  // ---------------------------------------------------------------------------------------

  /** The share of a step does not depend on the range. */
  predicate RangeFreeShare(cfg: Config) {
    && (cfg.poolLiquidity.None? || cfg.poolLiquidity.value == 0)
    && (cfg.snapshotFees.Some? ==>
          forall i :: 0 <= i < |cfg.steps| ==>
            cfg.steps[i].activeLiquidity.None? || cfg.steps[i].activeLiquidity.value == 0)
  }

  /** `wide` is the same static backtest over a range that contains the range of `narrow`. */
  predicate Widens(narrow: Config, wide: Config) {
    && wide == narrow.(width := wide.width, manualBounds := wide.manualBounds)
    && narrow.strategy.Static? && narrow.steps != []
    && InitialRange(wide).0 <= InitialRange(narrow).0 && InitialRange(narrow).1 <= InitialRange(wide).1
  }

  ghost predicate TicksMonotone(m: Clmm) { forall a, b :: a <= b ==> m.tickOf(a) <= m.tickOf(b) }

  predicate KeepsRange(cfg: Config, s: State)
    requires cfg.steps != []
  {
    s.lower == InitialRange(cfg).0 && s.upper == InitialRange(cfg).1 && s.model == ShareModel(cfg, s.liquidity)
  }

  lemma KeepStep(cfg: Config, m: Clmm, s: State, i: nat)
    requires i < |cfg.steps| && cfg.strategy.Static? && KeepsRange(cfg, s)
    ensures KeepsRange(cfg, Advance(cfg, m, s, i))
  {
    StepFacts(cfg, m, s, i);
  }

  lemma {:induction false} StaticKeepsRange(cfg: Config, m: Clmm, n: nat)
    requires cfg.steps != [] && n <= |cfg.steps| && cfg.strategy.Static?
    ensures KeepsRange(cfg, Run(cfg, m, n))
  {
    if n > 0 {
      var s, i := LastStep(cfg, m, n);
      StaticKeepsRange(cfg, m, i);
      KeepStep(cfg, m, s, i);
    }
  }

  lemma WiderIsInRange(narrow: Config, wide: Config, m: Clmm, s: State, t: State, i: nat)
    requires i < |narrow.steps| && Widens(narrow, wide) && TicksMonotone(m)
    requires KeepsRange(narrow, s) && KeepsRange(wide, t)
    ensures InRange(narrow, m, s.lower, s.upper, narrow.steps[i]) ==> InRange(wide, m, t.lower, t.upper, wide.steps[i])
  {
  }

  lemma WiderEarnsMore(narrow: Config, wide: Config, m: Clmm, s: State, t: State, i: nat)
    requires i < |narrow.steps| && Widens(narrow, wide) && TicksMonotone(m) && RangeFreeShare(narrow)
    requires KeepsRange(narrow, s) && KeepsRange(wide, t)
    requires PoolFees(narrow, i) >= 0.0 && 0.0 <= narrow.steps[i].lpShare
    ensures 0.0 <= Earned(narrow, m, s, i) <= Earned(wide, m, t, i)
  {
    WiderIsInRange(narrow, wide, m, s, t, i);
    var p := narrow.steps[i];
    assert FeeShare(narrow, s.liquidity, s.model, p) == p.lpShare == FeeShare(wide, t.liquidity, t.model, p);
    assert PoolFees(wide, i) == PoolFees(narrow, i);
    Product(PoolFees(narrow, i), p.lpShare);
  }

  lemma Product(a: real, b: real)
    requires a >= 0.0 && b >= 0.0
    ensures a * b >= 0.0
  {
  }

  /** On every path a wider static range is in range at least as often and earns at least as much. */
  lemma {:induction false} WiderStaticDominates(narrow: Config, wide: Config, m: Clmm, n: nat)
    requires Widens(narrow, wide) && TicksMonotone(m) && RangeFreeShare(narrow) && n <= |narrow.steps|
    requires PoolFeesProper(narrow) && SharesNotNegative(narrow.steps)
    ensures InRangeCount(narrow, m, n) <= InRangeCount(wide, m, n)
    ensures EarnedUpTo(narrow, m, n) <= EarnedUpTo(wide, m, n)
  {
    if n > 0 {
      var i: nat := n - 1;
      WiderStaticDominates(narrow, wide, m, i);
      WiderAt(narrow, wide, m, i);
    }
  }

  lemma WiderAt(narrow: Config, wide: Config, m: Clmm, i: nat)
    requires i < |narrow.steps| && Widens(narrow, wide) && TicksMonotone(m) && RangeFreeShare(narrow)
    requires PoolFeesProper(narrow) && SharesNotNegative(narrow.steps)
    ensures InRangeAt(narrow, m, i) ==> InRangeAt(wide, m, i)
    ensures Earned(narrow, m, Run(narrow, m, i), i) <= Earned(wide, m, Run(wide, m, i), i)
  {
    StaticKeepsRange(narrow, m, i);
    StaticKeepsRange(wide, m, i);
    var s, t := Run(narrow, m, i), Run(wide, m, i);
    WiderIsInRange(narrow, wide, m, s, t, i);
    WiderEarnsMore(narrow, wide, m, s, t, i);
  }

  /** The same for the reported summaries. */
  lemma WiderStaticReports(narrow: Config, wide: Config, m: Clmm)
    requires Widens(narrow, wide) && TicksMonotone(m) && RangeFreeShare(narrow)
    requires PoolFeesProper(narrow) && SharesNotNegative(narrow.steps)
    ensures Result(narrow, m).2.timeInRange <= Result(wide, m).2.timeInRange
    ensures Result(narrow, m).2.totalFees <= Result(wide, m).2.totalFees
  {
    var n := |narrow.steps|;
    WiderStaticDominates(narrow, wide, m, n);
    FeesAreEarned(narrow, m, n);
    FeesAreEarned(wide, m, n);
    TimeInRange(narrow, m);
    TimeInRange(wide, m);
    SmallerFraction(InRangeCount(narrow, m, n), InRangeCount(wide, m, n), n);
  }

  lemma SmallerFraction(a: nat, b: nat, n: nat)
    requires a <= b && n > 0
    ensures a as real / n as real <= b as real / n as real
  {
  }

  /** Without manual bounds a larger width on a non-negative price is such a wider range. */
  lemma LargerWidthWidens(narrow: Config, wide: Config)
    requires wide == narrow.(width := wide.width) && narrow.strategy.Static? && narrow.manualBounds.None?
    requires narrow.steps != [] && narrow.steps[0].priceAb >= 0.0 && narrow.width <= wide.width
    ensures Widens(narrow, wide)
  {
    var c := narrow.steps[0].priceAb;
    Scaled(c, 1.0 - wide.width / 2.0, 1.0 - narrow.width / 2.0);
    Scaled(c, 1.0 + narrow.width / 2.0, 1.0 + wide.width / 2.0);
  }

  lemma Scaled(c: real, a: real, b: real)
    requires c >= 0.0 && a <= b
    ensures c * a <= c * b
  {
  }

  // ---------------------------------------------------------------------------------------
  // What shares and fees are
  // ---------------------------------------------------------------------------------------

  /** The active liquidity that a step's share is measured against, if any: the step's own first. */
  function Against(cfg: Config, p: Step): nat {
    if cfg.snapshotFees.Some? && p.activeLiquidity.GetOr(0) > 0 then p.activeLiquidity.value
    else cfg.poolLiquidity.GetOr(0)
  }

  /** Against `n` units a position's share is its part of them, at most all; without, it is the step's share. */
  lemma ShareMeaning(cfg: Config, s: State, p: Step)
    requires ModelCurrent(cfg, s)
    ensures var share, n := FeeShare(cfg, s.liquidity, s.model, p), Against(cfg, p);
            if n == 0 then share == p.lpShare
            else share * n as real == (if s.liquidity <= n then s.liquidity else n) as real
  {
    var n := Against(cfg, p);
    if n > 0 {
      Capped(s.liquidity, n);
    }
  }

  lemma Capped(a: nat, n: nat)
    requires n > 0
    ensures Min(a as real / n as real, 1.0) * n as real == (if a <= n then a else n) as real
    ensures Min(0.0, 1.0) == 0.0 && Min(0 as real / n as real, 1.0) == 0.0
  {
    var q := a as real / n as real;
    assert q * n as real == a as real;
    if q > 1.0 {
      assert a > n;
    } else {
      assert a <= n;
    }
  }

  /** Without swaps a run reads exactly the buckets of its snapshot index on the path. */
  lemma {:induction false} SnapshotFeesRead(cfg: Config, n: nat)
    requires n <= |cfg.steps| && cfg.swaps.None? && cfg.snapshotFees.Some?
    ensures PoolUpTo(cfg, n) == Buckets.SumBelow(cfg.snapshotFees.value, n)
  {
    if n > 0 {
      SnapshotFeesRead(cfg, n - 1);
    }
  }

  /** The traded amounts of the swaps in the first `n` steps. */
  function WindowVolume(swaps: seq<Swap>, start: int, n: nat): real {
    if swaps == [] then 0.0
    else
      var s := swaps[|swaps| - 1];
      WindowVolume(swaps[..|swaps| - 1], start, n) +
      if s.blockTime.Some? && start <= s.blockTime.value < start + 3600 * n then s.amountUsd else 0.0
  }

  /** A swap states no fee or the one its tier gives. */
  predicate FollowsTier(s: Swap, tier: real) {
    s.feeTier == tier && (s.feeUsd == 0.0 || s.feeUsd == s.amountUsd * tier)
  }

  function Tiered(volume: real, tier: real): real { volume * tier }

  lemma TierAdds(a: real, b: real, tier: real)
    ensures Tiered(a, tier) + Tiered(b, tier) == Tiered(a + b, tier) && Tiered(0.0, tier) == 0.0
  {
  }

  lemma TierFee(s: Swap, tier: real)
    requires FollowsTier(s, tier)
    ensures SwapFee(s) == Tiered(s.amountUsd, tier)
  {
  }

  /** With one tier the fees of a window are that tier of its volume, stated or not. */
  lemma {:induction false} OneTierFees(swaps: seq<Swap>, start: int, n: nat, tier: real)
    requires forall s :: s in swaps ==> FollowsTier(s, tier)
    ensures WindowFees(swaps, start, n) == Tiered(WindowVolume(swaps, start, n), tier)
  {
    if swaps == [] {
      TierAdds(0.0, 0.0, tier);
    } else {
      var front, last := swaps[..|swaps| - 1], swaps[|swaps| - 1];
      OneTierFees(front, start, n, tier);
      TierFee(last, tier);
      TierAdds(WindowVolume(front, start, n), last.amountUsd, tier);
    }
  }

  /** A stated fee is taken as it is, whatever the tier. */
  lemma StatedFeeWins(s: Swap)
    requires s.feeUsd != 0.0
    ensures SumFees([s]) == s.feeUsd
  {
    assert [s][..0] == [];
  }
}
