/** The one-pass maximum drawdown of a run is the real one. */
module Drawdown {
  import opened Options
  import opened Backtest
  import opened BacktestRuns

  // ---------------------------------------------------------------------------------------
  // On any curve
  // ---------------------------------------------------------------------------------------

  /** Running maximum and running drawdown of a curve, as the loop keeps them. */
  function Peak(e: seq<real>): real
    requires e != []
  {
    if |e| == 1 then e[0] else Max(Peak(e[..|e| - 1]), e[|e| - 1])
  }

  /** The loss from a high of `high` to `x`, relative to the high. */
  function Loss(high: real, x: real): real
    requires high > 0.0
  {
    (high - x) / high
  }

  function OnePass(e: seq<real>): real
    requires e != []
  {
    if |e| == 1 then 0.0
    else
      var before, x := e[..|e| - 1], e[|e| - 1];
      if Peak(e) > 0.0 && Loss(Peak(e), x) > OnePass(before) then Loss(Peak(e), x) else OnePass(before)
  }

  /** `d` is the largest loss from any point of the curve to a later one. */
  ghost predicate IsMaxDrawdown(e: seq<real>, d: real) {
    && (forall i, j :: 0 <= i <= j < |e| && e[i] > 0.0 ==> Loss(e[i], e[j]) <= d)
    && (exists i, j :: 0 <= i <= j < |e| && e[i] > 0.0 && Loss(e[i], e[j]) == d)
  }

  predicate NonNegative(e: seq<real>) { forall i :: 0 <= i < |e| ==> e[i] >= 0.0 }

  lemma {:induction false} PeakIsHighest(e: seq<real>)
    requires e != []
    ensures forall i :: 0 <= i < |e| ==> e[i] <= Peak(e)
    ensures exists i :: 0 <= i < |e| && e[i] == Peak(e)
  {
    if |e| > 1 {
      var before := e[..|e| - 1];
      PeakIsHighest(before);
      var k :| 0 <= k < |before| && before[k] == Peak(before);
      assert e[k] == Peak(before);
      forall i | 0 <= i < |e|
        ensures e[i] <= Peak(e)
      {
        if i < |before| {
          assert before[i] == e[i];
        }
      }
    } else {
      assert e[0] == Peak(e);
    }
  }

  /** Falling from a higher point to the same value is a larger relative loss. */
  lemma HigherLosesMore(high: real, low: real, x: real)
    requires high >= low > 0.0 && x >= 0.0
    ensures Loss(low, x) <= Loss(high, x) <= 1.0
  {
    SplitQuotient(low, x);
    SplitQuotient(high, x);
    QuotientAntitone(x, low, high);
  }

  lemma SplitQuotient(h: real, x: real)
    requires h > 0.0
    ensures Loss(h, x) == 1.0 - x / h
  {
    var q := x / h;
    assert q * h == x;
    QuotientIs(h - x, h, 1.0 - q);
  }

  lemma QuotientIs(a: real, h: real, y: real)
    requires h > 0.0 && y * h == a
    ensures a / h == y
  {
  }

  lemma QuotientAntitone(x: real, low: real, high: real)
    requires high >= low > 0.0 && x >= 0.0
    ensures 0.0 <= x / high <= x / low
  {
    var q := x / low;
    assert q * low == x && q >= 0.0;
    assert q * high >= x;
  }

  /** The loop's drawdown is the quadratic one, and it lies between 0 and 1. */
  lemma {:induction false} OnePassIsMax(e: seq<real>)
    requires e != [] && NonNegative(e) && e[0] > 0.0
    ensures IsMaxDrawdown(e, OnePass(e)) && 0.0 <= OnePass(e) <= 1.0
  {
    if |e| == 1 {
      assert Loss(e[0], e[0]) == 0.0;
    } else {
      OnePassIsMax(e[..|e| - 1]);
      PeakIsHighest(e);
      OnePassUpper(e);
      OnePassAttained(e);
    }
  }

  lemma OnePassUpper(e: seq<real>)
    requires |e| > 1 && NonNegative(e) && e[0] > 0.0
    requires forall i :: 0 <= i < |e| ==> e[i] <= Peak(e)
    requires IsMaxDrawdown(e[..|e| - 1], OnePass(e[..|e| - 1])) && 0.0 <= OnePass(e[..|e| - 1]) <= 1.0
    ensures forall i, j :: 0 <= i <= j < |e| && e[i] > 0.0 ==> Loss(e[i], e[j]) <= OnePass(e)
    ensures 0.0 <= OnePass(e) <= 1.0
  {
    var before, n := e[..|e| - 1], |e| - 1;
    assert e[0] <= Peak(e);
    HigherLosesMore(Peak(e), e[0], e[n]);
    forall i, j | 0 <= i <= j < |e| && e[i] > 0.0
      ensures Loss(e[i], e[j]) <= OnePass(e)
    {
      if j < n {
        assert before[i] == e[i] && before[j] == e[j];
        assert Loss(before[i], before[j]) <= OnePass(before);
      } else {
        HigherLosesMore(Peak(e), e[i], e[n]);
      }
    }
  }

  lemma OnePassAttained(e: seq<real>)
    requires |e| > 1 && e[0] > 0.0 && exists i :: 0 <= i < |e| && e[i] == Peak(e)
    requires IsMaxDrawdown(e[..|e| - 1], OnePass(e[..|e| - 1]))
    ensures exists i, j :: 0 <= i <= j < |e| && e[i] > 0.0 && Loss(e[i], e[j]) == OnePass(e)
  {
    var before, n := e[..|e| - 1], |e| - 1;
    if Peak(e) > 0.0 && Loss(Peak(e), e[n]) > OnePass(before) {
      var k :| 0 <= k < |e| && e[k] == Peak(e);
      assert Loss(e[k], e[n]) == OnePass(e);
    } else {
      var i, j :| 0 <= i <= j < |before| && before[i] > 0.0 && Loss(before[i], before[j]) == OnePass(before);
      assert Loss(e[i], e[j]) == OnePass(e);
    }
  }

  // ---------------------------------------------------------------------------------------
  // On the equity curve of a run
  // ---------------------------------------------------------------------------------------

  /** Position value plus fees, as step `i` marks it. */
  function Equity(cfg: Config, m: Clmm, s: State, i: nat): real
    requires i < |cfg.steps|
  {
    PositionValue(m, s.liquidity, s.lower, s.upper, cfg.steps[i]) + Observed(cfg, m, s, i).fees
  }

  /** The initial capital followed by the equity of the first `n` steps. */
  function Curve(cfg: Config, m: Clmm, n: nat): (e: seq<real>)
    requires cfg.steps != [] && n <= |cfg.steps|
    ensures |e| == n + 1 && e[0] == cfg.capital
  {
    if n == 0 then [cfg.capital] else Curve(cfg, m, n - 1) + [Equity(cfg, m, Run(cfg, m, n - 1), n - 1)]
  }

  predicate Marked(s: State, e: seq<real>)
    requires e != []
  {
    s.peak == Peak(e) && s.maxDrawdown == OnePass(e)
  }

  lemma MarkStep(cfg: Config, m: Clmm, s: State, i: nat, e: seq<real>)
    requires i < |cfg.steps| && e != [] && Marked(s, e)
    ensures Marked(Advance(cfg, m, s, i), e + [Equity(cfg, m, s, i)])
  {
    var x := Equity(cfg, m, s, i);
    var t := Advance(cfg, m, s, i);
    assert (e + [x])[..|e|] == e;
    assert t.peak == if x > s.peak then x else s.peak;
    assert t.maxDrawdown ==
           if t.peak > 0.0 && Loss(t.peak, x) > s.maxDrawdown then Loss(t.peak, x) else s.maxDrawdown;
  }

  /** The peak and drawdown of a run are the one-pass values of its equity curve. */
  lemma {:induction false} RunMarks(cfg: Config, m: Clmm, n: nat)
    requires cfg.steps != [] && n <= |cfg.steps|
    ensures Marked(Run(cfg, m, n), Curve(cfg, m, n))
  {
    if n > 0 {
      var s, i := LastStep(cfg, m, n);
      RunMarks(cfg, m, i);
      MarkStep(cfg, m, s, i, Curve(cfg, m, i));
    }
  }

  /** Prices, shares, fees and token amounts are not negative. */
  ghost predicate SaneInputs(cfg: Config, m: Clmm) {
    && (forall l, a, p, b :: m.amounts(l, a, p, b).0 >= 0.0 && m.amounts(l, a, p, b).1 >= 0.0)
    && (forall i :: 0 <= i < |cfg.steps| ==>
          cfg.steps[i].priceUsd >= 0.0 && cfg.steps[i].quoteUsd >= 0.0 && cfg.steps[i].lpShare >= 0.0)
    && (forall i :: 0 <= i < |cfg.steps| ==> PoolFees(cfg, i) >= 0.0)
  }

  lemma ShareNotNegative(cfg: Config, liquidity: nat, model: FeeShareModel, p: Step)
    requires p.lpShare >= 0.0
    ensures FeeShare(cfg, liquidity, model, p) >= 0.0
  {
  }

  lemma FeesStep(cfg: Config, m: Clmm, s: State, i: nat)
    requires i < |cfg.steps| && SaneInputs(cfg, m) && FeesSane(s)
    ensures FeesSane(Advance(cfg, m, s, i)) && Equity(cfg, m, s, i) >= 0.0
  {
    var p := cfg.steps[i];
    ShareNotNegative(cfg, s.liquidity, s.model, p);
    Products(PoolFees(cfg, i), FeeShare(cfg, s.liquidity, s.model, p));
    var held := m.amounts(s.liquidity, s.lower, p.priceAb, s.upper);
    Products(held.0, p.priceUsd);
    Products(held.1, p.quoteUsd);
  }

  lemma Products(a: real, b: real)
    requires a >= 0.0 && b >= 0.0
    ensures a * b >= 0.0
  {
  }

  predicate FeesSane(s: State) { s.fees >= 0.0 }

  lemma {:induction false} FeesNotNegative(cfg: Config, m: Clmm, n: nat)
    requires cfg.steps != [] && n <= |cfg.steps| && SaneInputs(cfg, m)
    ensures FeesSane(Run(cfg, m, n))
  {
    if n > 0 {
      var s, i := LastStep(cfg, m, n);
      FeesNotNegative(cfg, m, i);
      FeesStep(cfg, m, s, i);
    }
  }

  lemma {:induction false} CurveNotNegative(cfg: Config, m: Clmm, n: nat)
    requires cfg.steps != [] && n <= |cfg.steps| && SaneInputs(cfg, m) && cfg.capital >= 0.0
    ensures NonNegative(Curve(cfg, m, n))
  {
    if n > 0 {
      CurveNotNegative(cfg, m, n - 1);
      FeesNotNegative(cfg, m, n - 1);
      FeesStep(cfg, m, Run(cfg, m, n - 1), n - 1);
      AppendNonNegative(Curve(cfg, m, n - 1), Equity(cfg, m, Run(cfg, m, n - 1), n - 1));
    }
  }

  lemma AppendNonNegative(e: seq<real>, x: real)
    requires NonNegative(e) && x >= 0.0
    ensures NonNegative(e + [x])
  {
  }

  /** On a curve without negative equity the reported maximum drawdown is its largest relative loss. */
  lemma ReportedDrawdown(cfg: Config, m: Clmm)
    requires cfg.steps != [] && NonNegative(Curve(cfg, m, |cfg.steps|)) && cfg.capital > 0.0
    ensures var d := Result(cfg, m).2.maxDrawdown;
            IsMaxDrawdown(Curve(cfg, m, |cfg.steps|), d) && 0.0 <= d <= 1.0
  {
    var n := |cfg.steps|;
    RunMarks(cfg, m, n);
    OnePassIsMax(Curve(cfg, m, n));
  }
}
