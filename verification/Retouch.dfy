/** RetouchShift over a whole run: one retouch per excursion, and what it does to the range. */
module Retouch {
  import opened Options
  import opened Backtest
  import opened BacktestRuns

  predicate InRangeAt(cfg: Config, m: Clmm, i: nat)
    requires i < |cfg.steps|
  {
    InRange(cfg, m, Run(cfg, m, i).lower, Run(cfg, m, i).upper, cfg.steps[i])
  }

  lemma RetouchStep(cfg: Config, m: Clmm, s: State, i: nat)
    requires i < |cfg.steps| && cfg.strategy.RetouchShift?
    ensures var inRange := InRange(cfg, m, s.lower, s.upper, cfg.steps[i]);
            && (Fires(cfg, m, s, i) <==> !inRange && s.armed && s.liquidity > 0)
            && Advance(cfg, m, s, i).armed == (!Fires(cfg, m, s, i) && (inRange || s.armed))
  {
    StepFacts(cfg, m, s, i);
  }

  /** After a retouch at step `i` the strategy stays disarmed until the price is back in range. */
  lemma {:induction false} Disarmed(cfg: Config, m: Clmm, i: nat, n: nat)
    requires i < n <= |cfg.steps| && cfg.strategy.RetouchShift? && FiresAt(cfg, m, i)
    requires forall k :: i < k < n ==> !InRangeAt(cfg, m, k)
    ensures !Run(cfg, m, n).armed
  {
    var s, last := LastStep(cfg, m, n);
    if last > i {
      Disarmed(cfg, m, i, last);
      assert !InRangeAt(cfg, m, last);
    }
    RetouchStep(cfg, m, s, last);
  }

  /** Between any two retouches the price has been in range. */
  lemma InRangeBetweenRetouches(cfg: Config, m: Clmm, i: nat, j: nat)
    requires i < j < |cfg.steps| && cfg.strategy.RetouchShift? && FiresAt(cfg, m, i) && FiresAt(cfg, m, j)
    ensures exists k :: i < k < j && InRangeAt(cfg, m, k)
  {
    if forall k :: i < k < j ==> !InRangeAt(cfg, m, k) {
      Disarmed(cfg, m, i, j);
      RetouchStep(cfg, m, Run(cfg, m, j), j);
    }
  }

  // ---------------------------------------------------------------------------------------
  // Width
  // ---------------------------------------------------------------------------------------

  function Pow(b: real, n: nat): real { if n == 0 then 1.0 else Pow(b, n - 1) * b }

  /** The width of `w` after `n` retouches with the given offset. */
  function Stretched(w: real, offset: real, n: nat): real {
    if n == 0 then w
    else if 1.0 + offset > 0.0 then Stretched(w, offset, n - 1) * (1.0 + offset)
    else Stretched(w, offset, n - 1)
  }

  /** The closed form of the same: a power of one plus the offset. */
  function PowerWidth(w: real, offset: real, n: nat): real {
    if 1.0 + offset > 0.0 then w * Pow(1.0 + offset, n) else w
  }

  lemma {:induction false} StretchedIsPower(w: real, offset: real, n: nat)
    ensures Stretched(w, offset, n) == PowerWidth(w, offset, n)
  {
    if n > 0 {
      StretchedIsPower(w, offset, n - 1);
      Reassociate(w, Pow(1.0 + offset, n - 1), 1.0 + offset);
    }
  }

  lemma Reassociate(a: real, b: real, c: real)
    ensures a * b * c == a * (b * c)
  {
  }

  lemma RetouchWidth(lower: real, upper: real, price: real, offset: real)
    ensures var r := RetouchRange(lower, upper, price, offset);
            r.1 - r.0 == if 1.0 + offset > 0.0 then (upper - lower) * (1.0 + offset) else upper - lower
  {
    var shift := 1.0 + offset;
    if price > upper {
      assert price * shift - (lower + (price - upper)) * shift == (upper - lower) * shift;
    } else {
      assert (upper - (lower - price)) * shift - price * shift == (upper - lower) * shift;
    }
  }

  predicate WidthIs(s: State, w: real, offset: real) { s.upper - s.lower == Stretched(w, offset, s.count) }

  lemma WidthStep(cfg: Config, m: Clmm, s: State, i: nat, w: real)
    requires i < |cfg.steps| && cfg.strategy.RetouchShift? && WidthIs(s, w, cfg.strategy.offset)
    ensures WidthIs(Advance(cfg, m, s, i), w, cfg.strategy.offset)
  {
    StepFacts(cfg, m, s, i);
    WidthAfter(s, Advance(cfg, m, s, i), cfg.steps[i].priceAb, cfg.strategy.offset, w);
  }

  lemma WidthAfter(s: State, t: State, price: real, offset: real, w: real)
    requires WidthIs(s, w, offset)
    requires (t.count == s.count && t.lower == s.lower && t.upper == s.upper)
             || (t.count == s.count + 1 && (t.lower, t.upper) == RetouchRange(s.lower, s.upper, price, offset))
    ensures WidthIs(t, w, offset)
  {
    RetouchWidth(s.lower, s.upper, price, offset);
  }

  function WidthOf(range: (real, real)): real { range.1 - range.0 }

  lemma InitialWidth(cfg: Config, m: Clmm)
    requires cfg.steps != [] && cfg.strategy.RetouchShift?
    ensures WidthIs(Initial(cfg, m), WidthOf(InitialRange(cfg)), cfg.strategy.offset)
  {
  }

  lemma {:induction false} WidthAlways(cfg: Config, m: Clmm, n: nat)
    requires cfg.steps != [] && n <= |cfg.steps| && cfg.strategy.RetouchShift?
    ensures WidthIs(Run(cfg, m, n), WidthOf(InitialRange(cfg)), cfg.strategy.offset)
  {
    if n == 0 {
      InitialWidth(cfg, m);
    } else {
      var s, i := LastStep(cfg, m, n);
      WidthAlways(cfg, m, i);
      WidthStep(cfg, m, s, i, WidthOf(InitialRange(cfg)));
    }
  }

  /** After `k` retouches the width is the initial one times (1 + offset)^k, or unchanged if 1 + offset <= 0. */
  lemma WidthOverRun(cfg: Config, m: Clmm, n: nat)
    requires cfg.steps != [] && n <= |cfg.steps| && cfg.strategy.RetouchShift?
    ensures var s := Run(cfg, m, n);
            WidthOf((s.lower, s.upper)) == PowerWidth(WidthOf(InitialRange(cfg)), cfg.strategy.offset, s.count)
  {
    WidthAlways(cfg, m, n);
    StretchedIsPower(WidthOf(InitialRange(cfg)), cfg.strategy.offset, Run(cfg, m, n).count);
  }

  // ---------------------------------------------------------------------------------------
  // Positive bounds and edges
  // ---------------------------------------------------------------------------------------

  predicate LowerPositive(s: State) { s.lower > 0.0 }

  predicate PositivePrices(cfg: Config) { forall i :: 0 <= i < |cfg.steps| ==> cfg.steps[i].priceAb > 0.0 }

  lemma RetouchLowerPositive(lower: real, upper: real, price: real, offset: real)
    requires lower > 0.0 && price > 0.0
    ensures RetouchRange(lower, upper, price, offset).0 > 0.0
  {
    var shift := 1.0 + offset;
    if shift > 0.0 {
      var l := if price > upper then lower + (price - upper) else price;
      PositiveProduct(l, shift);
      assert RetouchRange(lower, upper, price, offset).0 == l * shift;
    }
  }

  lemma PositiveProduct(a: real, b: real)
    requires a > 0.0 && b > 0.0
    ensures a * b > 0.0
  {
  }

  lemma LowerStep(cfg: Config, m: Clmm, s: State, i: nat)
    requires i < |cfg.steps| && cfg.strategy.RetouchShift? && LowerPositive(s) && PositivePrices(cfg)
    ensures LowerPositive(Advance(cfg, m, s, i))
  {
    StepFacts(cfg, m, s, i);
    RetouchLowerPositive(s.lower, s.upper, cfg.steps[i].priceAb, cfg.strategy.offset);
  }

  lemma InitialLowerPositive(cfg: Config, m: Clmm)
    requires cfg.steps != [] && cfg.strategy.RetouchShift? && cfg.width < 2.0 && cfg.steps[0].priceAb > 0.0
    ensures LowerPositive(Initial(cfg, m))
  {
    var half := cfg.width / 2.0;
    PositiveAround(cfg.steps[0].priceAb, half);
    assert InitialRange(cfg) == Around(cfg.steps[0].priceAb, half);
  }

  lemma PositiveAround(c: real, half: real)
    requires c > 0.0 && half < 1.0
    ensures Around(c, half).0 > 0.0
  {
  }

  lemma {:induction false} NarrowStaysPositive(cfg: Config, m: Clmm, n: nat)
    requires cfg.steps != [] && n <= |cfg.steps| && cfg.strategy.RetouchShift?
    requires cfg.width < 2.0 && PositivePrices(cfg)
    ensures LowerPositive(Run(cfg, m, n))
  {
    if n == 0 {
      InitialLowerPositive(cfg, m);
    } else {
      var s, i := LastStep(cfg, m, n);
      NarrowStaysPositive(cfg, m, i);
      LowerStep(cfg, m, s, i);
    }
  }

  ghost predicate AlwaysPositive(cfg: Config, m: Clmm)
    requires cfg.steps != []
  {
    forall n: nat :: n <= |cfg.steps| ==> LowerPositive(Run(cfg, m, n))
  }

  /** On positive prices the lower bound is positive in every state exactly when the width is below 2. */
  lemma LowerStaysPositive(cfg: Config, m: Clmm)
    requires cfg.steps != [] && cfg.strategy.RetouchShift? && PositivePrices(cfg)
    ensures AlwaysPositive(cfg, m) <==> cfg.width < 2.0
  {
    if cfg.width < 2.0 {
      forall n: nat | n <= |cfg.steps|
        ensures LowerPositive(Run(cfg, m, n))
      {
        NarrowStaysPositive(cfg, m, n);
      }
    } else {
      WideStartsBelow(cfg, m);
      assert !LowerPositive(Run(cfg, m, 0));
    }
  }

  lemma WideStartsBelow(cfg: Config, m: Clmm)
    requires cfg.steps != [] && cfg.strategy.RetouchShift? && cfg.steps[0].priceAb > 0.0 && cfg.width >= 2.0
    ensures Initial(cfg, m).lower <= 0.0
    ensures cfg.width == 2.0 ==> Initial(cfg, m).lower == 0.0
  {
    NegativeFactor(cfg.steps[0].priceAb, 1.0 - cfg.width / 2.0);
  }

  lemma NegativeFactor(a: real, b: real)
    requires a > 0.0 && b <= 0.0
    ensures a * b <= 0.0 && (b == 0.0 ==> a * b == 0.0)
  {
  }

  /** With zero offset a retouch from outside the bounds leaves the price on the edge it crossed. */
  lemma PriceOnEdge(cfg: Config, m: Clmm, i: nat)
    requires i < |cfg.steps| && cfg.strategy.RetouchShift? && cfg.strategy.offset == 0.0 && FiresAt(cfg, m, i)
    ensures var s, t, price := Run(cfg, m, i), Run(cfg, m, i + 1), cfg.steps[i].priceAb;
            && (price > s.upper ==> t.upper == price && t.lower == s.lower + (price - s.upper))
            && (price < s.lower && price <= s.upper ==> t.lower == price && t.upper == s.upper - (s.lower - price))
  {
    FiredRange(cfg, m, i);
  }

  /** The edge a retouch puts at the price, moved by the offset when that leaves it positive. */
  function Moved(price: real, offset: real): real { if 1.0 + offset > 0.0 then price * (1.0 + offset) else price }

  lemma RetouchEdge(lower: real, upper: real, price: real, offset: real)
    ensures var r := RetouchRange(lower, upper, price, offset);
            if price > upper then r.1 == Moved(price, offset) else r.0 == Moved(price, offset)
  {
  }

  /** A price above the range becomes the new upper edge, any other the new lower edge, each moved by the offset. */
  lemma EdgeAfterRetouch(cfg: Config, m: Clmm, i: nat)
    requires i < |cfg.steps| && cfg.strategy.RetouchShift? && FiresAt(cfg, m, i)
    ensures var s, t, price := Run(cfg, m, i), Run(cfg, m, i + 1), cfg.steps[i].priceAb;
            if price > s.upper then t.upper == Moved(price, cfg.strategy.offset)
            else t.lower == Moved(price, cfg.strategy.offset)
  {
    FiredRange(cfg, m, i);
    var s := Run(cfg, m, i);
    RetouchEdge(s.lower, s.upper, cfg.steps[i].priceAb, cfg.strategy.offset);
  }

  // ---------------------------------------------------------------------------------------
  // When a retouch happens
  // ---------------------------------------------------------------------------------------

  /** The range was retouched at step `k` and no step from then to `n` was in range. */
  predicate RetouchedSince(cfg: Config, m: Clmm, k: nat, n: nat)
    requires k < n <= |cfg.steps|
  {
    FiresAt(cfg, m, k) && forall j :: k < j < n ==> !InRangeAt(cfg, m, j)
  }

  /** The current excursion has had its retouch. */
  predicate Spent(cfg: Config, m: Clmm, n: nat)
    requires n <= |cfg.steps|
  {
    exists k :: 0 <= k < n && RetouchedSince(cfg, m, k, n)
  }

  lemma RetouchedNext(cfg: Config, m: Clmm, k: nat, n: nat)
    requires k < n < |cfg.steps|
    ensures RetouchedSince(cfg, m, k, n + 1) <==> RetouchedSince(cfg, m, k, n) && !InRangeAt(cfg, m, n)
  {
  }

  lemma JustRetouched(cfg: Config, m: Clmm, n: nat)
    requires n < |cfg.steps|
    ensures RetouchedSince(cfg, m, n, n + 1) <==> FiresAt(cfg, m, n)
  {
  }

  /** A retouch stays the last one while no step is in range. */
  lemma StaysSpent(cfg: Config, m: Clmm, n: nat)
    requires n < |cfg.steps| && (FiresAt(cfg, m, n) || (Spent(cfg, m, n) && !InRangeAt(cfg, m, n)))
    ensures Spent(cfg, m, n + 1)
  {
    if FiresAt(cfg, m, n) {
      JustRetouched(cfg, m, n);
    } else {
      var k :| 0 <= k < n && RetouchedSince(cfg, m, k, n);
      RetouchedNext(cfg, m, k, n);
    }
  }

  lemma WasSpent(cfg: Config, m: Clmm, n: nat)
    requires n < |cfg.steps| && Spent(cfg, m, n + 1)
    ensures FiresAt(cfg, m, n) || (Spent(cfg, m, n) && !InRangeAt(cfg, m, n))
  {
    var k :| 0 <= k < n + 1 && RetouchedSince(cfg, m, k, n + 1);
    if k < n {
      RetouchedNext(cfg, m, k, n);
    } else {
      JustRetouched(cfg, m, n);
    }
  }

  lemma SpentNext(cfg: Config, m: Clmm, n: nat)
    requires n < |cfg.steps|
    ensures Spent(cfg, m, n + 1) <==> FiresAt(cfg, m, n) || (Spent(cfg, m, n) && !InRangeAt(cfg, m, n))
  {
    if Spent(cfg, m, n + 1) {
      WasSpent(cfg, m, n);
    } else if FiresAt(cfg, m, n) || (Spent(cfg, m, n) && !InRangeAt(cfg, m, n)) {
      StaysSpent(cfg, m, n);
    }
  }

  lemma {:induction false} ArmedUnlessSpent(cfg: Config, m: Clmm, n: nat)
    requires cfg.steps != [] && n <= |cfg.steps| && cfg.strategy.RetouchShift?
    ensures Run(cfg, m, n).armed <==> !Spent(cfg, m, n)
  {
    if n > 0 {
      var s, i := LastStep(cfg, m, n);
      ArmedUnlessSpent(cfg, m, i);
      RetouchStep(cfg, m, s, i);
      SpentNext(cfg, m, i);
    }
  }

  /** The strategy retouches exactly when liquid and out of range, once between in-range steps. */
  lemma RetouchFires(cfg: Config, m: Clmm, i: nat)
    requires i < |cfg.steps| && cfg.strategy.RetouchShift?
    ensures FiresAt(cfg, m, i) <==>
            Run(cfg, m, i).liquidity > 0 && !InRangeAt(cfg, m, i) && !Spent(cfg, m, i)
  {
    ArmedUnlessSpent(cfg, m, i);
    RetouchStep(cfg, m, Run(cfg, m, i), i);
  }
}
