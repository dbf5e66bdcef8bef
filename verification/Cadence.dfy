/** When rebalances happen over a whole run. */
module Cadence {
  import opened Arithmetic
  import opened Options
  import opened Backtest
  import opened BacktestRuns

  /** The position has liquidity in each of the first `n` states. */
  predicate LiquidUpTo(cfg: Config, m: Clmm, n: nat)
    requires cfg.steps != [] && n <= |cfg.steps|
  {
    forall i :: 0 <= i < n ==> Liquid(cfg, m, i)
  }

  predicate Liquid(cfg: Config, m: Clmm, i: nat)
    requires cfg.steps != [] && i <= |cfg.steps|
  {
    Run(cfg, m, i).liquidity > 0
  }

  function AtLeastOne(n: nat): nat { if n == 0 then 1 else n }

  lemma DivModStep(n: nat, d: nat)
    requires d > 0
    ensures n % d + 1 == d ==> (n + 1) % d == 0 && (n + 1) / d == n / d + 1
    ensures n % d + 1 < d ==> (n + 1) % d == n % d + 1 && (n + 1) / d == n / d
  {
    var q, r := n / d, n % d;
    assert n + 1 == d * q + (r + 1);
    if r + 1 == d {
      assert n + 1 == d * (q + 1) + 0;
      QuotientUnique(n + 1, d, q + 1, 0);
    } else {
      QuotientUnique(n + 1, d, q, r + 1);
    }
  }

  // ---------------------------------------------------------------------------------------
  // Counted in steps
  // ---------------------------------------------------------------------------------------

  predicate CountsSteps(s: Strategy) { s.PeriodicSteps? || s.LastCandle? }

  function Every(s: Strategy): nat
    requires CountsSteps(s)
  {
    AtLeastOne(if s.PeriodicSteps? then s.steps else s.every)
  }

  lemma CountingStep(cfg: Config, m: Clmm, s: State, i: nat)
    requires i < |cfg.steps| && CountsSteps(cfg.strategy) && s.liquidity > 0
    ensures Fires(cfg, m, s, i) <==> s.sinceSteps + 1 >= Every(cfg.strategy)
  {
  }

  /** Counter and number of rebalances after `n` steps of an interval of `d`. */
  predicate InPhase(s: State, n: nat, d: nat)
    requires d > 0
  {
    s.sinceSteps == n % d && s.count == n / d
  }

  /** With liquidity, the counter and the number of rebalances are remainder and quotient. */
  lemma {:induction false} StepCadence(cfg: Config, m: Clmm, n: nat)
    requires cfg.steps != [] && n <= |cfg.steps| && CountsSteps(cfg.strategy) && LiquidUpTo(cfg, m, n)
    ensures InPhase(Run(cfg, m, n), n, Every(cfg.strategy))
  {
    if n == 0 {
      QuotientUnique(0, Every(cfg.strategy), 0, 0);
    } else {
      var s, i := LastStep(cfg, m, n);
      StepCadence(cfg, m, i);
      assert Liquid(cfg, m, i);
      CadenceStep(cfg, m, s, i);
    }
  }

  lemma CadenceStep(cfg: Config, m: Clmm, s: State, i: nat)
    requires i < |cfg.steps| && CountsSteps(cfg.strategy) && s.liquidity > 0
    requires InPhase(s, i, Every(cfg.strategy))
    ensures InPhase(Advance(cfg, m, s, i), i + 1, Every(cfg.strategy))
  {
    CountingAdvance(cfg, m, s, i);
    DivModStep(i, Every(cfg.strategy));
  }

  lemma CountingAdvance(cfg: Config, m: Clmm, s: State, i: nat)
    requires i < |cfg.steps| && CountsSteps(cfg.strategy) && s.liquidity > 0
    ensures var t := Advance(cfg, m, s, i);
            if s.sinceSteps + 1 >= Every(cfg.strategy) then t.sinceSteps == 0 && t.count == s.count + 1
            else t.sinceSteps == s.sinceSteps + 1 && t.count == s.count
  {
    CountingStep(cfg, m, s, i);
    StepFacts(cfg, m, s, i);
  }

  /** PeriodicSteps and LastCandle rebalance exactly at every n-th step. */
  lemma FiresEveryNth(cfg: Config, m: Clmm, i: nat)
    requires i < |cfg.steps| && CountsSteps(cfg.strategy) && LiquidUpTo(cfg, m, i + 1)
    ensures FiresAt(cfg, m, i) <==> (i + 1) % Every(cfg.strategy) == 0
    ensures Run(cfg, m, i + 1).count == (i + 1) / Every(cfg.strategy)
  {
    var d := Every(cfg.strategy);
    StepCadence(cfg, m, i);
    StepCadence(cfg, m, i + 1);
    assert Liquid(cfg, m, i);
    CountingStep(cfg, m, Run(cfg, m, i), i);
    DivModStep(i, d);
  }

  /** The first step count at which a Bollinger rebalance is possible. */
  function FirstBollinger(s: Strategy): nat
    requires s.Bollinger?
  {
    if s.window > AtLeastOne(s.every) then s.window else AtLeastOne(s.every)
  }

  predicate BollingerPhase(s: Strategy, n: nat, since: nat, count: nat)
    requires s.Bollinger?
  {
    var first := FirstBollinger(s);
    if n < first then since == n && count == 0
    else since == (n - first) % AtLeastOne(s.every) && count == 1 + (n - first) / AtLeastOne(s.every)
  }

  lemma BollingerAdvance(cfg: Config, m: Clmm, s: State, i: nat)
    requires i < |cfg.steps| && cfg.strategy.Bollinger? && s.liquidity > 0
    ensures Fires(cfg, m, s, i) <==> s.sinceSteps + 1 >= cfg.strategy.every && i + 1 >= cfg.strategy.window
    ensures var t := Advance(cfg, m, s, i);
            if Fires(cfg, m, s, i) then t.sinceSteps == 0 && t.count == s.count + 1
            else t.sinceSteps == s.sinceSteps + 1 && t.count == s.count
  {
    StepFacts(cfg, m, s, i);
  }

  lemma BollingerNext(s: Strategy, n: nat, since: nat, count: nat)
    requires s.Bollinger? && BollingerPhase(s, n, since, count)
    ensures var fires := since + 1 >= s.every && n + 1 >= s.window;
            && BollingerPhase(s, n + 1, if fires then 0 else since + 1, if fires then count + 1 else count)
            && (fires <==> n + 1 >= FirstBollinger(s) && (n + 1 - FirstBollinger(s)) % AtLeastOne(s.every) == 0)
  {
    var d, first := AtLeastOne(s.every), FirstBollinger(s);
    if n + 1 >= first {
      if n + 1 == first {
        QuotientUnique(0, d, 0, 0);
      } else {
        DivModStep(n - first, d);
      }
    }
  }

  lemma {:induction false} BollingerCadence(cfg: Config, m: Clmm, n: nat)
    requires cfg.steps != [] && n <= |cfg.steps| && cfg.strategy.Bollinger? && LiquidUpTo(cfg, m, n)
    ensures BollingerPhase(cfg.strategy, n, Run(cfg, m, n).sinceSteps, Run(cfg, m, n).count)
  {
    if n > 0 {
      var s, i := LastStep(cfg, m, n);
      BollingerCadence(cfg, m, i);
      assert Liquid(cfg, m, i);
      BollingerStep(cfg, m, s, i);
    }
  }

  lemma BollingerStep(cfg: Config, m: Clmm, s: State, i: nat)
    requires i < |cfg.steps| && cfg.strategy.Bollinger? && s.liquidity > 0
    requires BollingerPhase(cfg.strategy, i, s.sinceSteps, s.count)
    ensures var t := Advance(cfg, m, s, i); BollingerPhase(cfg.strategy, i + 1, t.sinceSteps, t.count)
  {
    BollingerAdvance(cfg, m, s, i);
    BollingerNext(cfg.strategy, i, s.sinceSteps, s.count);
  }

  /** Bollinger rebalances first at step max(window, every), then at every further `every` steps. */
  lemma BollingerFires(cfg: Config, m: Clmm, i: nat)
    requires i < |cfg.steps| && cfg.strategy.Bollinger? && LiquidUpTo(cfg, m, i + 1)
    ensures FiresAt(cfg, m, i) <==>
            i + 1 >= FirstBollinger(cfg.strategy)
            && (i + 1 - FirstBollinger(cfg.strategy)) % AtLeastOne(cfg.strategy.every) == 0
  {
    var s := Run(cfg, m, i);
    BollingerCadence(cfg, m, i);
    assert Liquid(cfg, m, i);
    BollingerAdvance(cfg, m, s, i);
    BollingerNext(cfg.strategy, i, s.sinceSteps, s.count);
  }

  // ---------------------------------------------------------------------------------------
  // Counted in seconds
  // ---------------------------------------------------------------------------------------

  /** Timestamps never go back. */
  predicate Chronological(steps: seq<Step>) {
    forall i, j :: 0 <= i <= j < |steps| ==> steps[i].ts <= steps[j].ts
  }

  /** The step of the last rebalance among the first `n` steps; the first step when there was none. */
  function LastReset(cfg: Config, m: Clmm, n: nat): (r: nat)
    requires cfg.steps != [] && n <= |cfg.steps|
    ensures r < |cfg.steps| && r <= n
  {
    if n == 0 then 0 else if FiresAt(cfg, m, n - 1) then n - 1 else LastReset(cfg, m, n - 1)
  }

  predicate ClockFits(steps: seq<Step>, s: State, n: nat, reset: nat)
    requires n <= |steps| && reset < |steps|
  {
    if n == 0 then s.prevTs == None && s.sinceSecs == 0 && reset == 0
    else s.prevTs == Some(steps[n - 1].ts) && s.sinceSecs == steps[n - 1].ts - steps[reset].ts && reset < n
  }

  lemma ClockAdvance(cfg: Config, m: Clmm, s: State, i: nat, reset: nat)
    requires i < |cfg.steps| && reset < |cfg.steps| && Chronological(cfg.steps)
    requires ClockFits(cfg.steps, s, i, reset)
    ensures Elapsed(s, cfg.steps[i]) == cfg.steps[i].ts - cfg.steps[reset].ts
    ensures ClockFits(cfg.steps, Advance(cfg, m, s, i), i + 1, if Fires(cfg, m, s, i) then i else reset)
  {
    StepFacts(cfg, m, s, i);
  }

  /** On chronological paths the seconds counter is the distance to the last rebalance. */
  lemma {:induction false} ClockAlways(cfg: Config, m: Clmm, n: nat)
    requires cfg.steps != [] && n <= |cfg.steps| && Chronological(cfg.steps)
    ensures ClockFits(cfg.steps, Run(cfg, m, n), n, LastReset(cfg, m, n))
  {
    if n > 0 {
      var s, i := LastStep(cfg, m, n);
      ClockAlways(cfg, m, i);
      ClockAdvance(cfg, m, s, i, LastReset(cfg, m, i));
    }
  }

  function Gap(cfg: Config, m: Clmm, i: nat): int
    requires i < |cfg.steps|
  {
    cfg.steps[i].ts - cfg.steps[LastReset(cfg, m, i)].ts
  }

  lemma TimedFires(cfg: Config, m: Clmm, s: State, i: nat)
    requires i < |cfg.steps|
    ensures cfg.strategy.Periodic? ==>
              (Fires(cfg, m, s, i) <==> s.liquidity > 0 && Elapsed(s, cfg.steps[i]) >= SatMul(cfg.strategy.hours, 3600))
    ensures cfg.strategy.LastCandleTime? ==>
              (Fires(cfg, m, s, i) <==> s.liquidity > 0 && Elapsed(s, cfg.steps[i]) >= cfg.strategy.everySecs)
    ensures cfg.strategy.Threshold? && !cfg.strategy.immediate && !InRange(cfg, m, s.lower, s.upper, cfg.steps[i]) ==>
              (Fires(cfg, m, s, i) <==>
                 s.liquidity > 0 && Elapsed(s, cfg.steps[i]) >= SatMul(cfg.strategy.minHours, 3600))
  {
  }

  /** Periodic and LastCandleTime rebalance exactly when their interval has passed since the last one. */
  lemma FiresAfterInterval(cfg: Config, m: Clmm, i: nat)
    requires i < |cfg.steps| && Chronological(cfg.steps)
    ensures cfg.strategy.Periodic? ==>
              (FiresAt(cfg, m, i) <==>
                 Run(cfg, m, i).liquidity > 0 && Gap(cfg, m, i) >= SatMul(cfg.strategy.hours, 3600))
    ensures cfg.strategy.LastCandleTime? ==>
              (FiresAt(cfg, m, i) <==> Run(cfg, m, i).liquidity > 0 && Gap(cfg, m, i) >= cfg.strategy.everySecs)
  {
    var s := Run(cfg, m, i);
    ClockAlways(cfg, m, i);
    ClockAdvance(cfg, m, s, i, LastReset(cfg, m, i));
    TimedFires(cfg, m, s, i);
  }

  /** A delayed Threshold leaves its minimum interval before it reacts to an exit from the range. */
  lemma DelayedThreshold(cfg: Config, m: Clmm, i: nat)
    requires i < |cfg.steps| && Chronological(cfg.steps) && cfg.strategy.Threshold? && !cfg.strategy.immediate
    requires var s := Run(cfg, m, i); !InRange(cfg, m, s.lower, s.upper, cfg.steps[i])
    ensures FiresAt(cfg, m, i) <==>
            Run(cfg, m, i).liquidity > 0 && Gap(cfg, m, i) >= SatMul(cfg.strategy.minHours, 3600)
  {
    var s := Run(cfg, m, i);
    ClockAlways(cfg, m, i);
    ClockAdvance(cfg, m, s, i, LastReset(cfg, m, i));
    TimedFires(cfg, m, s, i);
  }

  // ---------------------------------------------------------------------------------------
  // Periodic on short paths
  // ---------------------------------------------------------------------------------------

  lemma {:induction false} NoResetBefore(cfg: Config, m: Clmm, n: nat)
    requires cfg.steps != [] && n <= |cfg.steps| && Run(cfg, m, n).count == 0
    ensures LastReset(cfg, m, n) == 0 && Run(cfg, m, n).liquidity == InitialLiquidity(cfg, m)
  {
    if n > 0 {
      var s, i := LastStep(cfg, m, n);
      StepFacts(cfg, m, s, i);
      NoResetBefore(cfg, m, i);
    }
  }

  lemma {:induction false} StaticNeverMoves(cfg: Config, m: Clmm, n: nat)
    requires cfg.steps != [] && n <= |cfg.steps| && cfg.strategy.Static?
    ensures Run(cfg, m, n).count == 0 && (n < |cfg.steps| ==> !FiresAt(cfg, m, n))
  {
    if n > 0 {
      var s, i := LastStep(cfg, m, n);
      StaticNeverMoves(cfg, m, i);
      StepFacts(cfg, m, s, i);
    }
  }

  /** Duration of the path. */
  function Span(steps: seq<Step>): int
    requires steps != []
  {
    steps[|steps| - 1].ts - steps[0].ts
  }

  /** Periodic(h) on a path shorter than `h` hours reports what Static without manual bounds does. */
  lemma ShortPeriodicIsStatic(a: Config, b: Config, m: Clmm)
    requires b == a.(strategy := b.strategy) && a.steps != [] && Chronological(a.steps)
    requires a.strategy.Static? && a.manualBounds.None? && b.strategy.Periodic?
    requires Span(a.steps) < SatMul(b.strategy.hours, 3600)
    ensures Result(a, m) == Result(b, m)
  {
    forall i | 0 <= i < |a.steps|
      ensures AgreeAt(a, b, m, i)
    {
      var s := Run(a, m, i);
      StaticNeverMoves(a, m, i);
      NoResetBefore(a, m, i);
      ClockAlways(a, m, i);
      ClockAdvance(a, m, s, i, 0);
      TimedFires(b, m, s, i);
    }
    SameResult(a, b, m);
  }

  /** With liquidity at the start, Periodic(h) never rebalances exactly on such short paths. */
  lemma PeriodicIdleIff(cfg: Config, m: Clmm)
    requires cfg.steps != [] && Chronological(cfg.steps) && cfg.strategy.Periodic? && InitialLiquidity(cfg, m) > 0
    ensures Run(cfg, m, |cfg.steps|).count == 0 <==> Span(cfg.steps) < SatMul(cfg.strategy.hours, 3600)
  {
    var n := |cfg.steps|;
    if Span(cfg.steps) < SatMul(cfg.strategy.hours, 3600) {
      StaysIdle(cfg, m, n);
    } else if Run(cfg, m, n).count == 0 {
      var s, i := LastStep(cfg, m, n);
      StepFacts(cfg, m, s, i);
      NoResetBefore(cfg, m, i);
      FiresAfterInterval(cfg, m, i);
    }
  }

  lemma {:induction false} StaysIdle(cfg: Config, m: Clmm, n: nat)
    requires cfg.steps != [] && n <= |cfg.steps| && Chronological(cfg.steps) && cfg.strategy.Periodic?
    requires Span(cfg.steps) < SatMul(cfg.strategy.hours, 3600)
    ensures Run(cfg, m, n).count == 0
  {
    if n > 0 {
      var s, i := LastStep(cfg, m, n);
      StaysIdle(cfg, m, i);
      StepFacts(cfg, m, s, i);
      NoResetBefore(cfg, m, i);
      FiresAfterInterval(cfg, m, i);
    }
  }

  // ---------------------------------------------------------------------------------------
  // Periodic on hourly steps
  // ---------------------------------------------------------------------------------------

  /** One step every hour. */
  predicate Hourly(steps: seq<Step>) {
    forall i :: 0 <= i < |steps| ==> steps[i].ts == steps[0].ts + 3600 * i
  }

  /** Whether an hourly step `i` is due under an interval of `hours`. */
  predicate Due(hours: nat, i: nat) { hours == 0 || (i > 0 && i % hours == 0) }

  /** The last step due before step `n`, or the first step. */
  function LastDue(hours: nat, n: nat): nat {
    if n == 0 then 0 else if Due(hours, n - 1) then n - 1 else LastDue(hours, n - 1)
  }

  /** The last due step up to `n` is a remainder away. */
  lemma {:induction false} LastDueIs(hours: nat, n: nat)
    requires hours > 0
    ensures LastDue(hours, n + 1) == n - n % hours
  {
    if n == 0 {
      QuotientUnique(0, hours, 0, 0);
    } else {
      LastDueIs(hours, n - 1);
      RemainderStep(n - 1, hours);
    }
  }

  lemma RemainderStep(n: nat, d: nat)
    requires d > 0
    ensures (n + 1) % d == if n % d + 1 >= d then 0 else n % d + 1
  {
    DivModStep(n, d);
  }

  lemma AlwaysDue(i: nat)
    ensures LastDue(0, i) <= i && Due(0, i)
  {
    assert i > 0 ==> Due(0, i - 1);
  }

  lemma DueIsRemainder(hours: nat, n: nat)
    requires hours > 0
    ensures Due(hours, n + 1) <==> n % hours + 1 >= hours
  {
    RemainderStep(n, hours);
  }

  lemma SinceLastDue(hours: nat, n: nat)
    requires hours > 0
    ensures n + 1 - LastDue(hours, n + 1) == n % hours + 1
  {
    LastDueIs(hours, n);
  }

  /** A step is due exactly when the interval has passed since the last one. */
  lemma DueAfterInterval(hours: nat, i: nat)
    ensures LastDue(hours, i) <= i
    ensures Due(hours, i) <==> i - LastDue(hours, i) >= hours
  {
    if hours == 0 {
      AlwaysDue(i);
    } else if i > 0 {
      var n: nat := i - 1;
      DueIsRemainder(hours, n);
      SinceLastDue(hours, n);
    }
  }

  /** The saturated interval compares with whole hours like the interval itself. */
  lemma WholeHours(hours: u64, k: nat)
    requires 3600 * k <= U64_MAX
    ensures 3600 * k >= SatMul(hours, 3600) <==> k >= hours
  {
  }

  lemma HourlyIsChronological(steps: seq<Step>)
    requires Hourly(steps)
    ensures Chronological(steps)
  {
  }

  /** The hourly steps at which Periodic rebalances are the due ones. */
  lemma {:induction false} HourlyResets(cfg: Config, m: Clmm, n: nat)
    requires cfg.steps != [] && n <= |cfg.steps| && Hourly(cfg.steps) && cfg.strategy.Periodic? && LiquidUpTo(cfg, m, n)
    ensures LastReset(cfg, m, n) == LastDue(cfg.strategy.hours, n)
  {
    if n > 0 {
      var i: nat := n - 1;
      HourlyResets(cfg, m, i);
      assert Liquid(cfg, m, i);
      FiresWhenDue(cfg, m, i);
    }
  }

  lemma FiresWhenDue(cfg: Config, m: Clmm, i: nat)
    requires i < |cfg.steps| && Hourly(cfg.steps) && cfg.strategy.Periodic? && Liquid(cfg, m, i)
    requires LastReset(cfg, m, i) == LastDue(cfg.strategy.hours, i)
    ensures FiresAt(cfg, m, i) <==> Due(cfg.strategy.hours, i)
  {
    var hours := cfg.strategy.hours;
    var last := LastDue(hours, i);
    HourlyIsChronological(cfg.steps);
    FiresAfterInterval(cfg, m, i);
    DueAfterInterval(hours, i);
    assert Gap(cfg, m, i) == 3600 * (i - last);
    WholeHours(hours, i - last);
  }

  /**
   On hourly steps and while liquid, Periodic(h) rebalances exactly at the positive multiples of
   `h`, one step after PeriodicSteps(h); with `h` = 0 it rebalances at every step.
   */
  lemma HourlyPeriodic(cfg: Config, m: Clmm, i: nat)
    requires i < |cfg.steps| && Hourly(cfg.steps) && cfg.strategy.Periodic? && LiquidUpTo(cfg, m, i + 1)
    ensures FiresAt(cfg, m, i) <==> cfg.strategy.hours == 0 || (i > 0 && i % cfg.strategy.hours == 0)
  {
    assert Liquid(cfg, m, i);
    HourlyResets(cfg, m, i);
    FiresWhenDue(cfg, m, i);
  }

  /** The two periodic strategies side by side: the hourly one is a step late. */
  lemma PeriodicIsAStepLate(a: Config, b: Config, m: Clmm, i: nat)
    requires a.strategy.Periodic? && b.strategy.PeriodicSteps? && b.strategy.steps == a.strategy.hours > 0
    requires i + 1 < |a.steps| && i < |b.steps| && Hourly(a.steps)
    requires LiquidUpTo(a, m, i + 2) && LiquidUpTo(b, m, i + 1)
    ensures FiresAt(a, m, i + 1) <==> FiresAt(b, m, i)
  {
    HourlyPeriodic(a, m, i + 1);
    FiresEveryNth(b, m, i);
  }

  // ---------------------------------------------------------------------------------------
  // The clock on any path
  // ---------------------------------------------------------------------------------------

  /** How far time goes forward from step `k - 1` to step `k`; going back counts as nothing. */
  function Forward(steps: seq<Step>, k: nat): nat
    requires k < |steps|
  {
    if k > 0 && steps[k].ts > steps[k - 1].ts then steps[k].ts - steps[k - 1].ts else 0
  }

  /** All forward moves since the last rebalance among the first `n` steps. */
  function ForwardSince(cfg: Config, m: Clmm, n: nat): nat
    requires cfg.steps != [] && n <= |cfg.steps|
  {
    if n == 0 || FiresAt(cfg, m, n - 1) then 0 else ForwardSince(cfg, m, n - 1) + Forward(cfg.steps, n - 1)
  }

  /** The clock of `s` before step `n` shows `t` seconds, or the largest number it can. */
  predicate Shows(cfg: Config, s: State, n: nat, t: nat)
    requires n <= |cfg.steps|
  {
    && s.prevTs == (if n == 0 then None else Some(cfg.steps[n - 1].ts))
    && s.sinceSecs == if t < 0x1_0000_0000_0000_0000 then t else 0xFFFF_FFFF_FFFF_FFFF
  }

  lemma ShowsNext(cfg: Config, m: Clmm, s: State, i: nat, t: nat)
    requires i < |cfg.steps| && Shows(cfg, s, i, t) && (i == 0 ==> t == 0)
    ensures Shows(cfg, Advance(cfg, m, s, i), i + 1, if Fires(cfg, m, s, i) then 0 else t + Forward(cfg.steps, i))
  {
    StepFacts(cfg, m, s, i);
  }

  /** Whatever the order of the timestamps, the clock adds up the forward moves since the last rebalance. */
  lemma {:induction false} ClockOnAnyPath(cfg: Config, m: Clmm, n: nat)
    requires cfg.steps != [] && n <= |cfg.steps|
    ensures Shows(cfg, Run(cfg, m, n), n, ForwardSince(cfg, m, n))
  {
    if n > 0 {
      var s, i := LastStep(cfg, m, n);
      ClockOnAnyPath(cfg, m, i);
      ShowsNext(cfg, m, s, i, ForwardSince(cfg, m, i));
    }
  }
}
