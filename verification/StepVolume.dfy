/**
 The step data of a backtest: per-candle USD volume, rescaled per day to the pool's daily volume.

 A day is the number of whole days since the epoch, which names the same days as the formatted
 date. Amounts are reals.
 */
module StepVolume {
  import opened Options
  import opened Backtest
  import opened Buckets

  datatype Candle = Candle(ts: u64, close: real, volumeA: real)

  datatype Source = Source(
    candles: seq<Candle>,
    tvl: Option<map<nat, real>>,
    volume: Option<map<nat, real>>,
    quoteUsd: Option<map<nat, real>>,
    capital: real,
    shareOverride: Option<real>,
    stepsPerDay: real)

  const FALLBACK_VOLUME: real := 1_000_000.0
  const FALLBACK_SHARE: real := 0.01

  function Day(c: Candle): nat { c.ts / 86400 }

  function Quote(src: Source, c: Candle): real {
    if src.quoteUsd.Some? && c.ts in src.quoteUsd.value then src.quoteUsd.value[c.ts] else 1.0
  }

  function CandleVolume(src: Source, c: Candle): real { c.volumeA * (c.close * Quote(src, c)) }

  function VolumeRow(src: Source, c: Candle): Option<Row> { Some(Row(Day(c), CandleVolume(src, c))) }

  function VolumeRows(src: Source, n: nat): (rows: seq<Option<Row>>)
    requires n <= |src.candles|
    ensures |rows| == n
  {
    if n == 0 then [] else VolumeRows(src, n - 1) + [VolumeRow(src, src.candles[n - 1])]
  }

  /** Total candle volume of a day. */
  function DayTotal(src: Source, day: nat): real { BucketTotal(VolumeRows(src, |src.candles|), day) }

  method DayTotals(src: Source) returns (totals: map<nat, real>)
    ensures Holds(totals, VolumeRows(src, |src.candles|))
  {
    totals := map[];
    for n := 0 to |src.candles|
      invariant Holds(totals, VolumeRows(src, n))
    {
      var c := src.candles[n];
      PutHolds(totals, VolumeRows(src, n), VolumeRow(src, c));
      totals := totals[Day(c) := (if Day(c) in totals then totals[Day(c)] else 0.0) + CandleVolume(src, c)];
    }
  }

  /** The pool's volume and TVL of a day, when both are known and not zero. */
  function PoolDay(src: Source, day: nat): Option<(real, real)> {
    if src.tvl.Some? && src.volume.Some? then
      var tvl := if day in src.tvl.value then src.tvl.value[day] else 0.0;
      var volume := if day in src.volume.value then src.volume.value[day] else 0.0;
      if tvl == 0.0 || volume == 0.0 then None else Some((volume, tvl))
    else None
  }

  /** The volume of a candle whose own volume is `own` on a day with total `total`. */
  function ScaledVolume(src: Source, c: Candle, own: real, total: real): real
    requires src.stepsPerDay != 0.0
  {
    var pool := PoolDay(src, Day(c));
    if pool.Some? then
      if total > 0.0 && own > 0.0 then pool.value.0 * (own / total) else pool.value.0 / src.stepsPerDay
    else if src.tvl.Some? && src.volume.Some? then FALLBACK_VOLUME
    else if own > 0.0 then own
    else FALLBACK_VOLUME
  }

  function Share(src: Source, c: Candle): real {
    var pool := PoolDay(src, Day(c));
    if src.shareOverride.Some? then src.shareOverride.value
    else if pool.Some? then Max(Min(src.capital / pool.value.1, 1.0), 0.0)
    else FALLBACK_SHARE
  }

  /** The step of a candle on a day whose candles have the volume `total`. */
  function PointOnDay(src: Source, c: Candle, total: real): Step
    requires src.stepsPerDay != 0.0
  {
    Step(c.close * Quote(src, c), c.close, ScaledVolume(src, c, CandleVolume(src, c), total),
         Quote(src, c), Share(src, c), None, None, c.ts)
  }

  function Point(src: Source, c: Candle): Step
    requires src.stepsPerDay != 0.0
  {
    PointOnDay(src, c, DayTotal(src, Day(c)))
  }

  method BuildStepData(src: Source) returns (data: seq<Step>)
    requires src.stepsPerDay != 0.0
    ensures |data| == |src.candles| && forall k :: 0 <= k < |data| ==> data[k] == Point(src, src.candles[k])
  {
    var totals := DayTotals(src);
    data := [];
    for n := 0 to |src.candles|
      invariant |data| == n && forall k :: 0 <= k < n ==> data[k] == Point(src, src.candles[k])
    {
      var c := src.candles[n];
      if Day(c) !in totals {
        UntouchedIsZero(VolumeRows(src, |src.candles|), Day(c));
      }
      var total := if Day(c) in totals then totals[Day(c)] else 0.0;
      assert total == DayTotal(src, Day(c));
      data := data + [PointOnDay(src, c, total)];
    }
  }

  // ---------------------------------------------------------------------------------------
  // Daily scaling
  // ---------------------------------------------------------------------------------------

  /** The step volumes of the day among the first `n` candles. */
  function DayVolume(src: Source, day: nat, n: nat): real
    requires n <= |src.candles| && src.stepsPerDay != 0.0
  {
    if n == 0 then 0.0
    else DayVolume(src, day, n - 1) +
         if Day(src.candles[n - 1]) == day then Point(src, src.candles[n - 1]).volumeUsd else 0.0
  }

  /** The day's candles among the first `n` that have no volume of their own. */
  function Idle(src: Source, day: nat, n: nat): nat
    requires n <= |src.candles|
  {
    if n == 0 then 0
    else Idle(src, day, n - 1) +
         if Day(src.candles[n - 1]) == day && CandleVolume(src, src.candles[n - 1]) == 0.0 then 1 else 0
  }

  predicate VolumesProper(src: Source) {
    forall k :: 0 <= k < |src.candles| ==> CandleVolume(src, src.candles[k]) >= 0.0
  }

  function Portion(v: real, part: real, total: real): real
    requires total != 0.0
  {
    v * (part / total)
  }

  lemma PortionsAdd(v: real, a: real, b: real, total: real)
    requires total > 0.0
    ensures Portion(v, a + b, total) == Portion(v, a, total) + Portion(v, b, total)
    ensures Portion(v, 0.0, total) == 0.0 && Portion(v, total, total) == v
  {
    assert (a + b) / total == a / total + b / total;
    assert v * (a / total + b / total) == v * (a / total) + v * (b / total);
  }

  function Copies(v: real, n: nat): real { if n == 0 then 0.0 else Copies(v, n - 1) + v }

  /** What `z` idle candles get of the daily volume `v` spread over `n` steps. */
  function EvenShares(v: real, z: nat, n: real): real
    requires n != 0.0
  {
    z as real * (v / n)
  }

  lemma {:induction false} CopiesAreShares(v: real, z: nat, n: real)
    requires n != 0.0
    ensures Copies(v / n, z) == EvenShares(v, z, n)
  {
    if z > 0 {
      CopiesAreShares(v, z - 1, n);
      var q := v / n;
      assert (z - 1) as real * q + q == z as real * q;
    }
  }

  lemma CandlePart(src: Source, day: nat, c: Candle)
    requires src.stepsPerDay != 0.0 && PoolDay(src, day).Some? && DayTotal(src, day) > 0.0
    requires Day(c) == day && CandleVolume(src, c) >= 0.0
    ensures var v := PoolDay(src, day).value.0;
            Point(src, c).volumeUsd ==
              if CandleVolume(src, c) == 0.0 then v / src.stepsPerDay
              else Portion(v, CandleVolume(src, c), DayTotal(src, day))
  {
  }

  /** On a day with candle volume every traded candle gets its portion, every idle one an even share. */
  lemma {:induction false} TradedDay(src: Source, day: nat, n: nat)
    requires n <= |src.candles| && src.stepsPerDay != 0.0 && VolumesProper(src)
    requires PoolDay(src, day).Some? && DayTotal(src, day) > 0.0
    ensures var v := PoolDay(src, day).value.0;
            DayVolume(src, day, n) == Portion(v, BucketTotal(VolumeRows(src, n), day), DayTotal(src, day))
                                      + Copies(v / src.stepsPerDay, Idle(src, day, n))
  {
    var v, total := PoolDay(src, day).value.0, DayTotal(src, day);
    if n == 0 {
      PortionsAdd(v, 0.0, 0.0, total);
    } else {
      TradedDay(src, day, n - 1);
      var c, rows := src.candles[n - 1], VolumeRows(src, n - 1);
      assert VolumeRows(src, n)[..n - 1] == rows;
      PortionsAdd(v, BucketTotal(rows, day), CandleVolume(src, c), total);
      if Day(c) == day {
        CandlePart(src, day, c);
      }
    }
  }

  lemma {:induction false} IdleDay(src: Source, day: nat, n: nat)
    requires n <= |src.candles| && src.stepsPerDay != 0.0
    requires PoolDay(src, day).Some? && DayTotal(src, day) <= 0.0
    requires forall k :: 0 <= k < n && Day(src.candles[k]) == day ==> CandleVolume(src, src.candles[k]) == 0.0
    ensures DayVolume(src, day, n) == Copies(PoolDay(src, day).value.0 / src.stepsPerDay, Idle(src, day, n))
  {
    if n > 0 {
      IdleDay(src, day, n - 1);
      assert Day(src.candles[n - 1]) == day ==> CandleVolume(src, src.candles[n - 1]) == 0.0;
    }
  }

  lemma {:induction false} TotalBounds(src: Source, day: nat, n: nat, k: nat)
    requires k < n <= |src.candles| && VolumesProper(src) && Day(src.candles[k]) == day
    ensures BucketTotal(VolumeRows(src, n), day) >= CandleVolume(src, src.candles[k])
  {
    assert VolumeRows(src, n)[..n - 1] == VolumeRows(src, n - 1);
    assert CandleVolume(src, src.candles[n - 1]) >= 0.0;
    if k < n - 1 {
      TotalBounds(src, day, n - 1, k);
    } else {
      TotalNotNegative(src, day, n - 1);
    }
  }

  lemma {:induction false} TotalNotNegative(src: Source, day: nat, n: nat)
    requires n <= |src.candles| && VolumesProper(src)
    ensures BucketTotal(VolumeRows(src, n), day) >= 0.0
  {
    if n > 0 {
      TotalNotNegative(src, day, n - 1);
      assert VolumeRows(src, n)[..n - 1] == VolumeRows(src, n - 1);
      assert CandleVolume(src, src.candles[n - 1]) >= 0.0;
    }
  }

  /** The volumes of a pool day: the daily volume if anything traded, plus an even share per idle candle. */
  lemma DayScaling(src: Source, day: nat)
    requires src.stepsPerDay != 0.0 && VolumesProper(src) && PoolDay(src, day).Some?
    ensures var v := PoolDay(src, day).value.0;
            var n := |src.candles|;
            DayVolume(src, day, n)
            == (if DayTotal(src, day) > 0.0 then v else 0.0) + EvenShares(v, Idle(src, day, n), src.stepsPerDay)
  {
    CopiesAreShares(PoolDay(src, day).value.0, Idle(src, day, |src.candles|), src.stepsPerDay);
    if DayTotal(src, day) > 0.0 {
      TradedDayTotal(src, day);
    } else {
      NothingTraded(src, day);
      IdleDay(src, day, |src.candles|);
    }
  }

  lemma TradedDayTotal(src: Source, day: nat)
    requires src.stepsPerDay != 0.0 && VolumesProper(src) && PoolDay(src, day).Some? && DayTotal(src, day) > 0.0
    ensures var v, n := PoolDay(src, day).value.0, |src.candles|;
            DayVolume(src, day, n) == v + Copies(v / src.stepsPerDay, Idle(src, day, n))
  {
    var total := DayTotal(src, day);
    TradedDay(src, day, |src.candles|);
    PortionsAdd(PoolDay(src, day).value.0, 0.0, 0.0, total);
  }

  lemma NothingTraded(src: Source, day: nat)
    requires VolumesProper(src) && DayTotal(src, day) <= 0.0
    ensures forall k :: 0 <= k < |src.candles| && Day(src.candles[k]) == day ==>
              CandleVolume(src, src.candles[k]) == 0.0
  {
    forall k | 0 <= k < |src.candles| && Day(src.candles[k]) == day
      ensures CandleVolume(src, src.candles[k]) == 0.0
    {
      assert CandleVolume(src, src.candles[k]) >= 0.0;
      TotalBounds(src, day, |src.candles|, k);
    }
  }

  /** The day total matches the pool exactly when no candle is idle, or all steps of the day are. */
  lemma DayMatchesPool(src: Source, day: nat)
    requires src.stepsPerDay != 0.0 && VolumesProper(src) && PoolDay(src, day).Some?
    ensures DayVolume(src, day, |src.candles|) == PoolDay(src, day).value.0
            <==> Idle(src, day, |src.candles|) as real == if DayTotal(src, day) > 0.0 then 0.0 else src.stepsPerDay
  {
    DayScaling(src, day);
    EvenSharesAre(PoolDay(src, day).value.0, Idle(src, day, |src.candles|), src.stepsPerDay);
  }

  /** A traded candle and an idle one on a day of which the pool knows the volume 24. */
  predicate HalfIdle(src: Source) {
    && src.candles == [Candle(0, 1.0, 1.0), Candle(3600, 1.0, 0.0)] && src.quoteUsd == None
    && src.tvl == Some(map[0 := 1.0]) && src.volume == Some(map[0 := 24.0]) && src.stepsPerDay == 24.0
  }

  lemma HalfIdleVolumes(src: Source)
    requires HalfIdle(src)
    ensures CandleVolume(src, src.candles[0]) == 1.0 && CandleVolume(src, src.candles[1]) == 0.0
    ensures VolumesProper(src)
  {
  }

  lemma HalfIdleCount(src: Source)
    requires HalfIdle(src)
    ensures Idle(src, 0, 2) == 1
  {
    HalfIdleVolumes(src);
    assert Idle(src, 0, 1) == 0;
  }

  lemma HalfIdleTotal(src: Source)
    requires HalfIdle(src)
    ensures DayTotal(src, 0) == 1.0
  {
    HalfIdleVolumes(src);
    var none, first := VolumeRows(src, 0), VolumeRows(src, 1);
    var a, b := VolumeRow(src, src.candles[0]), VolumeRow(src, src.candles[1]);
    PutAt(none, a, 0);
    PutAt(first, b, 0);
    assert first == none + [a] && VolumeRows(src, 2) == first + [b];
  }

  /** The idle candle adds an hour's share on top of the whole volume. */
  lemma IdleCandleAddsVolume(src: Source)
    requires HalfIdle(src)
    ensures PoolDay(src, 0) == Some((24.0, 1.0)) && DayVolume(src, 0, 2) == 25.0
  {
    HalfIdleVolumes(src);
    HalfIdleCount(src);
    HalfIdleTotal(src);
    DayScaling(src, 0);
  }

  lemma EvenSharesAre(v: real, z: nat, n: real)
    requires v != 0.0 && n != 0.0
    ensures EvenShares(v, z, n) == 0.0 <==> z == 0
    ensures EvenShares(v, z, n) == v <==> z as real == n
  {
    var q := v / n;
    assert q * n == v;
    NoZeroDivisors(z as real, q);
    NoZeroDivisors(z as real - n, q);
    assert (z as real - n) * q == z as real * q - n * q;
  }

  lemma NoZeroDivisors(a: real, b: real)
    requires b != 0.0
    ensures a * b == 0.0 <==> a == 0.0
  {
  }

  /** Every share is a proportion when the override is one. */
  lemma SharesAreProportions(src: Source, c: Candle)
    requires src.shareOverride.Some? ==> 0.0 <= src.shareOverride.value <= 1.0
    ensures 0.0 <= Share(src, c) <= 1.0
  {
  }

  // ---------------------------------------------------------------------------------------
  // One step
  // ---------------------------------------------------------------------------------------

  /** The quote of a candle: the one given for its very timestamp, or 1. */
  lemma QuoteMeaning(src: Source, c: Candle)
    requires src.stepsPerDay != 0.0
    ensures (exists q :: src.quoteUsd == Some(q) && c.ts in q && Point(src, c).quoteUsd == q[c.ts])
            || ((src.quoteUsd == None || c.ts !in src.quoteUsd.value) && Point(src, c).quoteUsd == 1.0)
  {
  }

  /** The USD price is the close in quote units times the quote; a candle's volume is its tokens at that price. */
  lemma StepIsConsistent(src: Source, c: Candle)
    requires src.stepsPerDay != 0.0
    ensures var p := Point(src, c);
            && p.priceAb == c.close && p.ts == c.ts && p.priceUsd == p.priceAb * p.quoteUsd
            && CandleVolume(src, c) == c.volumeA * p.priceUsd
            && p.activeLiquidity == None && p.tick == None
  {
  }

  /** Without pool data a step has the volume its candle traded, or a million when it traded none. */
  lemma OwnVolume(src: Source, c: Candle)
    requires src.stepsPerDay != 0.0 && (src.tvl.None? || src.volume.None?)
    ensures var p := Point(src, c);
            p.volumeUsd == if c.volumeA * p.priceUsd > 0.0 then c.volumeA * p.priceUsd else 1_000_000.0
    ensures Point(src, c).lpShare == src.shareOverride.GetOr(0.01)
  {
    StepIsConsistent(src, c);
  }

  /** A pool day needs both maps to know the day, with neither value zero. */
  lemma PoolDayMeaning(src: Source, day: nat, volume: real, tvl: real)
    ensures PoolDay(src, day) == Some((volume, tvl)) <==>
              && src.tvl.Some? && day in src.tvl.value && src.tvl.value[day] == tvl != 0.0
              && src.volume.Some? && day in src.volume.value && src.volume.value[day] == volume != 0.0
  {
  }

  /** With both maps but no pool day a step falls back to a million and a hundredth. */
  lemma UnknownDay(src: Source, c: Candle)
    requires src.stepsPerDay != 0.0 && src.tvl.Some? && src.volume.Some? && PoolDay(src, Day(c)).None?
    ensures Point(src, c).volumeUsd == 1_000_000.0 && Point(src, c).lpShare == src.shareOverride.GetOr(0.01)
  {
  }

  /** On a pool day the share is the capital's part of the TVL, and all of it at most. */
  lemma ShareOfPool(src: Source, c: Candle)
    requires src.stepsPerDay != 0.0 && PoolDay(src, Day(c)).Some?
    ensures var share, tvl := Point(src, c).lpShare, PoolDay(src, Day(c)).value.1;
            if src.shareOverride.Some? then share == src.shareOverride.value
            else tvl > 0.0 && src.capital >= 0.0 ==>
                   share * tvl == if src.capital <= tvl then src.capital else tvl
  {
    var tvl := PoolDay(src, Day(c)).value.1;
    if tvl > 0.0 && src.capital >= 0.0 {
      PartOfPool(src.capital, tvl);
    }
  }

  lemma PartOfPool(capital: real, tvl: real)
    requires tvl > 0.0 && capital >= 0.0
    ensures Max(Min(capital / tvl, 1.0), 0.0) * tvl == if capital <= tvl then capital else tvl
  {
    var q := capital / tvl;
    assert q * tvl == capital;
    if q > 1.0 {
      assert capital > tvl;
    } else {
      assert capital <= tvl;
    }
  }

  /** The day of a candle is the whole day its timestamp lies in. */
  lemma DayMeaning(c: Candle)
    ensures 86400 * Day(c) <= c.ts < 86400 * Day(c) + 86400
  {
  }
}
