/** Which steps the candle strategies look at, and what their band covers. */
module CandleRanges {
  import opened Arithmetic
  import opened Options
  import opened Backtest
  import opened BacktestRuns
  import opened Cadence

  /** The candle is the last aligned stretch of its length that is complete at step `i`. */
  lemma CandleMeaning(i: nat, candleSteps: nat)
    ensures var c := AtLeastOne(candleSteps);
            var r := LastClosedCandle(i, candleSteps);
            && (r.None? <==> i + 1 < c)
            && (r.Some? ==> r.value.0 % c == 0 && r.value.1 + 1 == r.value.0 + c && r.value.1 <= i < r.value.1 + c)
  {
    var c := AtLeastOne(candleSteps);
    var q := (i + 1) / c;
    assert i + 1 == c * q + (i + 1) % c;
    if q > 0 {
      QuotientUnique((q - 1) * c, c, q - 1, 0);
      assert (q - 1) * c + c == c * q;
    } else {
      assert c * q == 0;
    }
    if i + 1 < c {
      QuotientUnique(i + 1, c, 0, i + 1);
    }
  }

  predicate InBucket(p: Step, lo: int, hi: int) { lo <= p.ts < hi }

  /** Where the backward scan stands: the steps from `n` to `i` have been looked at. */
  predicate Scanned(steps: seq<Step>, i: nat, n: nat, lo: int, hi: int, found: Option<(nat, nat)>)
    requires i < |steps| && n <= i + 1
  {
    if found.None? then forall k :: n <= k <= i ==> steps[k].ts >= hi
    else found.value.0 == n && n <= found.value.1 <= i
         && forall k :: n <= k <= i ==> (InBucket(steps[k], lo, hi) <==> k <= found.value.1)
  }

  /** On chronological steps the scan finds exactly the bucket. */
  lemma {:induction false} ScanFinds(steps: seq<Step>, i: nat, n: nat, lo: int, hi: int, found: Option<(nat, nat)>)
    requires Chronological(steps) && i < |steps| && n <= i + 1 && lo < hi && Scanned(steps, i, n, lo, hi, found)
    ensures var r := ScanBucket(steps, n, lo, hi, found);
            if r.None? then forall k :: 0 <= k <= i ==> !InBucket(steps[k], lo, hi)
            else forall k :: 0 <= k <= i ==> (InBucket(steps[k], lo, hi) <==> r.value.0 <= k <= r.value.1)
  {
    if n > 0 {
      var ts := steps[n - 1].ts;
      if ts >= hi {
        SkipLater(steps, i, n, lo, hi, found);
        ScanFinds(steps, i, n - 1, lo, hi, found);
      } else if ts >= lo {
        ScanFinds(steps, i, n - 1, lo, hi, Some((n - 1, if found.Some? then found.value.1 else n - 1)));
      }
    }
  }

  /** A step after the bucket comes before anything of the bucket has been found. */
  lemma SkipLater(steps: seq<Step>, i: nat, n: nat, lo: int, hi: int, found: Option<(nat, nat)>)
    requires Chronological(steps) && i < |steps| && 0 < n <= i + 1 && Scanned(steps, i, n, lo, hi, found)
    requires steps[n - 1].ts >= hi
    ensures Scanned(steps, i, n - 1, lo, hi, found) && found.None?
  {
    assert found.Some? ==> InBucket(steps[n], lo, hi);
  }

  /** The bucket is the last whole interval of `candleSecs` seconds before the time of step `i`. */
  lemma BucketMeaning(steps: seq<Step>, i: nat, candleSecs: u64)
    requires Chronological(steps) && i < |steps| && candleSecs > 0
    ensures var end := BucketEnd(steps[i].ts, candleSecs);
            var r := LastClosedBucket(steps, i, candleSecs);
            && end % candleSecs as int == 0 && end <= steps[i].ts < end + candleSecs
            && (if r.None? then forall k :: 0 <= k <= i ==> !InBucket(steps[k], end - candleSecs, end)
                else forall k :: 0 <= k <= i ==>
                       (InBucket(steps[k], end - candleSecs, end) <==> r.value.0 <= k <= r.value.1))
  {
    var end := BucketEnd(steps[i].ts, candleSecs);
    EndBounds(steps[i].ts, candleSecs);
    if end >= candleSecs {
      ScanFinds(steps, i, i + 1, end - candleSecs, end, None);
    }
  }

  lemma EndBounds(t: u64, candleSecs: u64)
    requires candleSecs > 0
    ensures var end := BucketEnd(t, candleSecs);
            0 <= end <= t < end + candleSecs && (end < candleSecs ==> end == 0) && end % candleSecs as int == 0
  {
    var q: nat := t as int / candleSecs as int;
    QuotientUnique(q * candleSecs as int, candleSecs as int, q, 0);
    DivisionSpan(t, candleSecs);
    Multiples(q, candleSecs);
  }

  /** A multiple is zero or at least the number itself. */
  lemma Multiples(q: nat, c: nat)
    ensures q * c >= 0 && (q * c < c ==> q * c == 0)
  {
    if q > 0 {
      assert q * c == c + (q - 1) * c;
      assert (q - 1) * c >= 0;
    }
  }

  lemma Extremes(xs: seq<real>) returns (x: nat, y: nat)
    requires xs != []
    ensures x < |xs| && xs[x] == Lowest(xs)
    ensures y < |xs| && xs[y] == Highest(xs)
    ensures forall i :: 0 <= i < |xs| ==> Lowest(xs) <= xs[i] <= Highest(xs)
  {
    LowestAndHighest(xs);
    assert forall i :: 0 <= i < |xs| ==> xs[i] in xs;
    x :| 0 <= x < |xs| && xs[x] == Lowest(xs);
    y :| 0 <= y < |xs| && xs[y] == Highest(xs);
  }

  /** A stretch with two different positive prices opens its band. */
  lemma OpensBand(cfg: Config, first: nat, last: nat, preferLow: bool)
    requires first <= last < |cfg.steps|
    requires var slice := Closes(cfg.steps[first..last + 1]); 0.0 < Lowest(slice) < Highest(slice)
    ensures var slice := Closes(cfg.steps[first..last + 1]);
            StretchRange(cfg, Some((first, last)), preferLow) == (Lowest(slice), Highest(slice))
  {
  }

  /** Where the lowest and the highest price of a stretch are. */
  lemma StretchExtremes(cfg: Config, first: nat, last: nat) returns (a: nat, b: nat)
    requires first <= last < |cfg.steps|
    ensures var slice := Closes(cfg.steps[first..last + 1]);
            && slice != [] && first <= a <= last && Lowest(slice) == cfg.steps[a].priceAb
            && first <= b <= last && Highest(slice) == cfg.steps[b].priceAb
            && forall i :: first <= i <= last ==> Lowest(slice) <= cfg.steps[i].priceAb <= Highest(slice)
  {
    var slice := Closes(cfg.steps[first..last + 1]);
    var x, y := Extremes(slice);
    a, b := first + x, first + y;
    forall i | first <= i <= last
      ensures Lowest(slice) <= cfg.steps[i].priceAb <= Highest(slice)
    {
      assert slice[i - first] == cfg.steps[i].priceAb;
    }
  }

  /** A proper band is the tightest range around the prices of its stretch: `a` and `b` are on its edges. */
  lemma BandIsTight(cfg: Config, first: nat, last: nat, preferLow: bool, j: nat, k: nat) returns (a: nat, b: nat)
    requires first <= last < |cfg.steps|
    requires forall i :: first <= i <= last ==> cfg.steps[i].priceAb > 0.0
    requires first <= j <= last && first <= k <= last && cfg.steps[j].priceAb != cfg.steps[k].priceAb
    ensures var r := StretchRange(cfg, Some((first, last)), preferLow);
            && first <= a <= last && r.0 == cfg.steps[a].priceAb
            && first <= b <= last && r.1 == cfg.steps[b].priceAb
            && forall i :: first <= i <= last ==> r.0 <= cfg.steps[i].priceAb <= r.1
  {
    a, b := StretchExtremes(cfg, first, last);
    OpensBand(cfg, first, last, preferLow);
  }

  // ---------------------------------------------------------------------------------------
  // Fallback ranges
  // ---------------------------------------------------------------------------------------

  /** A range around `c` with the width of the configuration. */
  predicate Centres(cfg: Config, r: (real, real), c: real) { r.0 + r.1 == 2.0 * c && r.1 - r.0 == cfg.width * c }

  lemma AroundCentres(cfg: Config, c: real)
    ensures Centres(cfg, Around(c, cfg.width / 2.0), c)
  {
  }

  /** Before a candle has closed the range is around the first price. */
  lemma NoCandleYet(cfg: Config, preferLow: bool)
    requires cfg.steps != []
    ensures Centres(cfg, StretchRange(cfg, None, preferLow), cfg.steps[0].priceAb)
  {
    AroundCentres(cfg, cfg.steps[0].priceAb);
  }

  /** A stretch that never moved is opened around its price. */
  lemma FlatStretch(cfg: Config, first: nat, last: nat, preferLow: bool, c: real)
    requires first <= last < |cfg.steps| && forall i :: first <= i <= last ==> cfg.steps[i].priceAb == c
    ensures Centres(cfg, StretchRange(cfg, Some((first, last)), preferLow), c)
  {
    var a, b := StretchExtremes(cfg, first, last);
    AroundCentres(cfg, c);
  }

  /** A stretch that touched zero or less is opened around its close. */
  lemma NonPositiveStretch(cfg: Config, first: nat, last: nat, preferLow: bool, k: nat)
    requires first <= k <= last < |cfg.steps| && cfg.steps[k].priceAb <= 0.0
    ensures Centres(cfg, StretchRange(cfg, Some((first, last)), preferLow), cfg.steps[last].priceAb)
  {
    var a, b := StretchExtremes(cfg, first, last);
    AroundCentres(cfg, cfg.steps[last].priceAb);
  }

  /** `closes` are the prices of the last `window` steps up to `i`, oldest first. */
  predicate LastCloses(cfg: Config, i: nat, window: nat, closes: seq<real>)
    requires i < |cfg.steps| && window <= i + 1
  {
    |closes| == window && forall j :: 0 <= j < window ==> closes[j] == cfg.steps[i + 1 - window + j].priceAb
  }

  lemma QuotientTimes(total: real, window: nat)
    requires window > 0
    ensures total / window as real * window as real == total
  {
  }

  /** The bands of the last closes, or a range around their mean. */
  ghost predicate OpensBands(cfg: Config, r: (real, real), band: Option<(real, real)>, total: real, window: nat) {
    if band.Some? then r == band.value
    else exists mean :: Centres(cfg, r, mean) && mean * window as real == total
  }

  lemma BollingerRange(cfg: Config, m: Clmm, lower: real, upper: real, i: nat, closes: seq<real>)
    requires i < |cfg.steps| && cfg.strategy.Bollinger? && 0 < cfg.strategy.window <= i + 1
    requires LastCloses(cfg, i, cfg.strategy.window, closes)
    ensures OpensBands(cfg, NewRange(cfg, m, lower, upper, i), m.bands(closes, cfg.strategy.k), Sum(closes),
                       cfg.strategy.window)
  {
    var window := cfg.strategy.window;
    assert closes == Closes(cfg.steps[i + 1 - window..i + 1]);
    var mean := Sum(closes) / window as real;
    QuotientTimes(Sum(closes), window);
    AroundCentres(cfg, mean);
  }

  /** A Bollinger rebalance opens the bands of the last closes, or a range around their mean. */
  lemma BollingerOpens(cfg: Config, m: Clmm, i: nat, closes: seq<real>)
    requires i < |cfg.steps| && cfg.strategy.Bollinger? && 0 < cfg.strategy.window <= i + 1
    requires LastCloses(cfg, i, cfg.strategy.window, closes) && FiresAt(cfg, m, i)
    ensures var t := Run(cfg, m, i + 1);
            OpensBands(cfg, (t.lower, t.upper), m.bands(closes, cfg.strategy.k), Sum(closes), cfg.strategy.window)
  {
    FiredRange(cfg, m, i);
    BollingerRange(cfg, m, Run(cfg, m, i).lower, Run(cfg, m, i).upper, i, closes);
  }

  // ---------------------------------------------------------------------------------------
  // What candle rebalances of a run open
  // ---------------------------------------------------------------------------------------

  /** All prices of the stretch are positive and not all are the same. */
  predicate Moves(cfg: Config, first: nat, last: nat)
    requires first <= last < |cfg.steps|
  {
    && (forall k :: first <= k <= last ==> cfg.steps[k].priceAb > 0.0)
    && (exists k :: first <= k <= last && cfg.steps[k].priceAb != cfg.steps[last].priceAb)
  }

  /** The edges are prices of the stretch and enclose all of them. */
  predicate Encloses(cfg: Config, r: (real, real), first: nat, last: nat)
    requires first <= last < |cfg.steps|
  {
    && (exists a :: first <= a <= last && cfg.steps[a].priceAb == r.0)
    && (exists b :: first <= b <= last && cfg.steps[b].priceAb == r.1)
    && (forall k :: first <= k <= last ==> r.0 <= cfg.steps[k].priceAb <= r.1)
  }

  /** The range over a stretch: its prices when they move, else the width around its close. */
  predicate OpensOver(cfg: Config, r: (real, real), first: nat, last: nat)
    requires first <= last < |cfg.steps|
  {
    if Moves(cfg, first, last) then Encloses(cfg, r, first, last) else Centres(cfg, r, cfg.steps[last].priceAb)
  }

  lemma StretchOpens(cfg: Config, first: nat, last: nat, preferLow: bool)
    requires first <= last < |cfg.steps|
    ensures OpensOver(cfg, StretchRange(cfg, Some((first, last)), preferLow), first, last)
  {
    if Moves(cfg, first, last) {
      var k :| first <= k <= last && cfg.steps[k].priceAb != cfg.steps[last].priceAb;
      var a, b := BandIsTight(cfg, first, last, preferLow, k, last);
    } else if k :| first <= k <= last && cfg.steps[k].priceAb <= 0.0 {
      NonPositiveStretch(cfg, first, last, preferLow, k);
    } else {
      FlatStretch(cfg, first, last, preferLow, cfg.steps[last].priceAb);
    }
  }

  /** A candle rebalance opens the range over the last aligned complete candle, or around the first price. */
  lemma CandleOpens(cfg: Config, m: Clmm, i: nat) returns (first: nat, last: nat)
    requires i < |cfg.steps| && cfg.strategy.LastCandle? && FiresAt(cfg, m, i)
    ensures var t, c := Run(cfg, m, i + 1), AtLeastOne(cfg.strategy.candleSteps);
            if i + 1 < c then Centres(cfg, (t.lower, t.upper), cfg.steps[0].priceAb)
            else first % c == 0 && last + 1 == first + c && first <= last <= i < last + c
                 && OpensOver(cfg, (t.lower, t.upper), first, last)
  {
    var stretch := LastClosedCandle(i, cfg.strategy.candleSteps);
    FiredRange(cfg, m, i);
    CandleMeaning(i, cfg.strategy.candleSteps);
    first, last := stretch.GetOr((0, 0)).0, stretch.GetOr((0, 0)).1;
    if stretch.None? {
      NoCandleYet(cfg, true);
    } else {
      StretchOpens(cfg, first, last, true);
    }
  }

  /** The steps up to `i` with times from `lo` on and before `hi` are exactly those from `first` to `last`. */
  predicate Spans(cfg: Config, i: nat, lo: int, hi: int, first: nat, last: nat)
    requires i < |cfg.steps|
  {
    first <= last <= i && forall k :: 0 <= k <= i ==> (InBucket(cfg.steps[k], lo, hi) <==> first <= k <= last)
  }

  /** The range over the steps with times in the interval, or around the first price if there are none. */
  predicate OpensInterval(cfg: Config, r: (real, real), i: nat, lo: int, hi: int, first: nat, last: nat)
    requires i < |cfg.steps|
  {
    if forall k :: 0 <= k <= i ==> !InBucket(cfg.steps[k], lo, hi) then Centres(cfg, r, cfg.steps[0].priceAb)
    else Spans(cfg, i, lo, hi, first, last) && OpensOver(cfg, r, first, last)
  }

  lemma BucketOpens(cfg: Config, i: nat, secs: u64) returns (first: nat, last: nat)
    requires i < |cfg.steps| && Chronological(cfg.steps) && secs > 0
    ensures var end := BucketEnd(cfg.steps[i].ts, secs);
            OpensInterval(cfg, StretchRange(cfg, LastClosedBucket(cfg.steps, i, secs), false), i, end - secs, end,
                          first, last)
  {
    var stretch := LastClosedBucket(cfg.steps, i, secs);
    var end := BucketEnd(cfg.steps[i].ts, secs);
    BucketMeaning(cfg.steps, i, secs);
    first, last := stretch.GetOr((0, 0)).0, stretch.GetOr((0, 0)).1;
    if stretch.None? {
      NoCandleYet(cfg, false);
    } else {
      StretchOpens(cfg, first, last, false);
      assert InBucket(cfg.steps[first], end - secs, end);
    }
  }

  /** A time-candle rebalance opens the range over the last whole interval. */
  lemma TimeCandleOpens(cfg: Config, m: Clmm, i: nat) returns (end: int, first: nat, last: nat)
    requires i < |cfg.steps| && cfg.strategy.LastCandleTime? && cfg.strategy.candleSecs > 0
    requires Chronological(cfg.steps) && FiresAt(cfg, m, i)
    ensures var secs, t := cfg.strategy.candleSecs, Run(cfg, m, i + 1);
            && end % secs as int == 0 && end <= cfg.steps[i].ts < end + secs
            && OpensInterval(cfg, (t.lower, t.upper), i, end - secs, end, first, last)
  {
    end := BucketEnd(cfg.steps[i].ts, cfg.strategy.candleSecs);
    EndBounds(cfg.steps[i].ts, cfg.strategy.candleSecs);
    FiredRange(cfg, m, i);
    first, last := BucketOpens(cfg, i, cfg.strategy.candleSecs);
  }

  /** Time candles of no length never close. */
  lemma ZeroSecondsOpen(cfg: Config, m: Clmm, i: nat)
    requires i < |cfg.steps| && cfg.strategy.LastCandleTime? && cfg.strategy.candleSecs == 0 && FiresAt(cfg, m, i)
    ensures var t := Run(cfg, m, i + 1); Centres(cfg, (t.lower, t.upper), cfg.steps[0].priceAb)
  {
    FiredRange(cfg, m, i);
    NoCandleYet(cfg, false);
  }
}
