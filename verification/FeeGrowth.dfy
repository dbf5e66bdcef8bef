/**
 Pool fees from on-chain snapshots: Q64.64 fee-growth deltas with integer floors, or protocol fee
 counters, filed into step buckets by the middle of each interval.

 The USD value of one raw unit of each token at a step is an input (zero when the token or its
 decimals are unknown); the raw amounts are exact integers.
 */
module FeeGrowth {
  import opened Arithmetic
  import opened Options
  import opened Buckets

  const Q64: nat := 0x1_0000_0000_0000_0000
  const TWO128: nat := 0x1_0000_0000_0000_0000_0000_0000_0000_0000
  const U256_MAX: nat := TWO128 * TWO128 - 1

  type u128 = x: int | 0 <= x < 0x1_0000_0000_0000_0000_0000_0000_0000_0000

  datatype Point = Point(
    ts: int,
    protocolA: u128, protocolB: u128,
    growthA: Option<u128>, growthB: Option<u128>,
    liquidity: Option<u128>)

  function SaturatingMul256(a: u128, b: u128): nat {
    if a as nat * b as nat > U256_MAX then U256_MAX else a as nat * b as nat
  }

  function DeltaFromGrowth(g0: Option<u128>, g1: Option<u128>, liquidity: Option<u128>): Option<u128> {
    if g0.None? || g1.None? || liquidity.None? then None
    else if g1.value <= g0.value || liquidity.value == 0 then Some(0)
    else Some(SaturatingMul256(g1.value - g0.value, liquidity.value) / Q64 % TWO128)
  }

  function SaturatingSub(a: u128, b: u128): u128 { if a >= b then a - b else 0 }

  function Or(a: Option<u128>, b: Option<u128>): Option<u128> { if a.Some? then a else b }

  datatype Side = A | B

  function Growth(side: Side, p: Point): Option<u128> { if side.A? then p.growthA else p.growthB }

  function Counter(side: Side, p: Point): u128 { if side.A? then p.protocolA else p.protocolB }

  /** Raw fees of one token between two snapshots. */
  function Interval(side: Side, p0: Point, p1: Point): u128 {
    DeltaFromGrowth(Growth(side, p0), Growth(side, p1), Or(p1.liquidity, p0.liquidity))
      .GetOr(SaturatingSub(Counter(side, p1), Counter(side, p0)))
  }

  /** The path that the fees are filed on, and the value of a raw unit of each token at a step. */
  datatype Path = Path(start: int, stepSeconds: int, steps: nat, usdA: (Point, nat) -> real, usdB: (Point, nat) -> real)

  function AtLeastOneSecond(s: int): int { if s > 1 then s else 1 }

  /** Rust's `/` on integers truncates; only the sum of two times can be negative here. */
  function Middle(a: int, b: int): int { if a + b >= 0 then (a + b) / 2 else -((-(a + b)) / 2) }

  /** The USD value of the raw fees of an interval that is filed at a step. */
  function Usd(path: Path, p0: Point, p1: Point, index: nat): real {
    Interval(A, p0, p1) as real * path.usdA(p1, index) + Interval(B, p0, p1) as real * path.usdB(p1, index)
  }

  /** What the interval between two snapshots adds, if anything. */
  function Contribution(path: Path, p0: Point, p1: Point): Option<Row> {
    var delta := Middle(p0.ts, p1.ts) - path.start;
    var index := delta / AtLeastOneSecond(path.stepSeconds);
    if p1.ts <= p0.ts || delta < 0 || index >= path.steps then None
    else if Interval(A, p0, p1) == 0 && Interval(B, p0, p1) == 0 then None
    else if Usd(path, p0, p1, index) > 0.0 then Some(Row(index, Usd(path, p0, p1, index)))
    else None
  }

  /** The middle is half the sum, rounded towards zero. */
  lemma MiddleMeaning(a: int, b: int)
    ensures a + b >= 0 ==> 0 <= a + b - 2 * Middle(a, b) <= 1
    ensures a + b <= 0 ==> -1 <= a + b - 2 * Middle(a, b) <= 0
  {
  }

  lemma MiddleIsBetween(a: int, b: int)
    requires a <= b
    ensures a <= Middle(a, b) <= b
  {
  }

  /** An interval is filed at the step that holds its middle, which lies inside the interval. */
  lemma FiledAtMiddle(path: Path, p0: Point, p1: Point)
    requires path.stepSeconds >= 1 && Contribution(path, p0, p1).Some?
    ensures var row, middle := Contribution(path, p0, p1).value, Middle(p0.ts, p1.ts);
            && p0.ts <= middle <= p1.ts && row.index < path.steps
            && path.start + row.index * path.stepSeconds <= middle
               < path.start + row.index * path.stepSeconds + path.stepSeconds
            && row.amount == Usd(path, p0, p1, row.index) > 0.0
  {
    MiddleIsBetween(p0.ts, p1.ts);
    DivisionSpan(Middle(p0.ts, p1.ts) - path.start, path.stepSeconds);
  }

  function Contributions(path: Path, pts: seq<Point>, n: nat): (rows: seq<Option<Row>>)
    requires n < |pts|
    ensures |rows| == n
  {
    if n == 0 then [] else Contributions(path, pts, n - 1) + [Contribution(path, pts[n - 1], pts[n])]
  }

  method FileInterval(path: Path, p0: Point, p1: Point, fees: map<nat, real>) returns (filed: map<nat, real>)
    ensures filed == Put(fees, Contribution(path, p0, p1))
  {
    filed := fees;
    if p1.ts <= p0.ts {
      return;
    }
    var rawA, rawB := Interval(A, p0, p1), Interval(B, p0, p1);
    if rawA == 0 && rawB == 0 {
      return;
    }
    var delta := Middle(p0.ts, p1.ts) - path.start;
    if delta < 0 {
      return;
    }
    var index := delta / AtLeastOneSecond(path.stepSeconds);
    if index >= path.steps {
      return;
    }
    var usd := Usd(path, p0, p1, index);
    if usd > 0.0 {
      filed := fees[index := (if index in fees then fees[index] else 0.0) + usd];
    }
  }

  lemma NextContribution(path: Path, pts: seq<Point>, n: nat)
    requires 0 < n < |pts|
    ensures Filed(Contributions(path, pts, n)) ==
            Put(Filed(Contributions(path, pts, n - 1)), Contribution(path, pts[n - 1], pts[n]))
  {
    FiledNext(Contributions(path, pts, n - 1), Contribution(path, pts[n - 1], pts[n]));
  }

  method SnapshotFees(path: Path, pts: seq<Point>) returns (fees: Fees)
    ensures fees == if |pts| < 2 then None else NonEmpty(Filed(Contributions(path, pts, |pts| - 1)))
  {
    if |pts| < 2 {
      return None;
    }
    var m: map<nat, real> := map[];
    for n := 1 to |pts|
      invariant m == Filed(Contributions(path, pts, n - 1))
    {
      NextContribution(path, pts, n);
      m := FileInterval(path, pts[n - 1], pts[n], m);
    }
    fees := if m == map[] then None else Some(m);
  }

  lemma {:induction false} ContributionsInPath(path: Path, pts: seq<Point>, n: nat)
    requires n < |pts|
    ensures forall i :: 0 <= i < n && Contributions(path, pts, n)[i].Some? ==>
              && Contributions(path, pts, n)[i].value.index < path.steps
              && Contributions(path, pts, n)[i].value.amount > 0.0
  {
    if n > 0 {
      ContributionsInPath(path, pts, n - 1);
    }
  }

  /** Every contribution is in a bucket of the path, so the buckets together hold all of them. */
  lemma NothingLost(path: Path, pts: seq<Point>)
    requires |pts| >= 1
    ensures var rows := Contributions(path, pts, |pts| - 1);
            && SumBelow(Filed(rows), path.steps) == Total(rows)
            && forall index :: index in Filed(rows) ==> index < path.steps && Filed(rows)[index] > 0.0
  {
    var rows := Contributions(path, pts, |pts| - 1);
    ContributionsInPath(path, pts, |pts| - 1);
    FiledHolds(rows);
    FiledPositive(rows);
    Conserved(Filed(rows), rows, path.steps);
    AllBelow(rows, path.steps);
    forall index | index in Filed(rows)
      ensures index < path.steps
    {
      assert Touched(rows, index);
    }
  }

  function Total(rows: seq<Option<Row>>): real {
    if rows == [] then 0.0
    else Total(rows[..|rows| - 1]) + if rows[|rows| - 1].Some? then rows[|rows| - 1].value.amount else 0.0
  }

  lemma {:induction false} AllBelow(rows: seq<Option<Row>>, n: nat)
    requires forall i :: 0 <= i < |rows| && rows[i].Some? ==> rows[i].value.index < n
    ensures RowsBelow(rows, n) == Total(rows)
  {
    if rows != [] {
      AllBelow(rows[..|rows| - 1], n);
    }
  }

  // ---------------------------------------------------------------------------------------
  // Floors
  // ---------------------------------------------------------------------------------------

  /** The 256-bit product of two 128-bit numbers never saturates. */
  lemma NeverSaturates(a: u128, b: u128)
    ensures SaturatingMul256(a, b) == a as nat * b as nat
  {
    Grid(TWO128, a, b);
  }

  lemma Grid(n: nat, a: nat, b: nat)
    requires a < n && b < n
    ensures a * b <= n * n - 1
  {
    assert a * b <= a * n;
    assert a * n <= (n - 1) * n;
  }

  /** The raw fees of one token that count between two snapshots. */
  function Counted(side: Side, p0: Point, p1: Point): nat { if p1.ts > p0.ts then Interval(side, p0, p1) else 0 }

  /** The raw fees of one token over the intervals of the first `n` snapshots after the first. */
  function FeesUpTo(side: Side, pts: seq<Point>, n: nat): nat
    requires n < |pts|
  {
    if n == 0 then 0
    else FeesUpTo(side, pts, n - 1) + Counted(side, pts[n - 1], pts[n])
  }

  predicate Growing(side: Side, pts: seq<Point>, liquidity: u128) {
    && (forall i :: 0 <= i < |pts| ==> Growth(side, pts[i]).Some? && pts[i].liquidity == Some(liquidity))
    && (forall i, j :: 0 <= i <= j < |pts| ==> Growth(side, pts[i]).value <= Growth(side, pts[j]).value)
  }

  predicate StrictlyLater(pts: seq<Point>) { forall i :: 0 < i < |pts| ==> pts[i - 1].ts < pts[i].ts }

  /** The exact, unrounded-per-interval fee between two growth values. */
  function Exact(g0: nat, g1: nat, liquidity: nat): nat
    requires g0 <= g1
  {
    (g1 - g0) * liquidity / 0x1_0000_0000_0000_0000
  }

  lemma FloorOfSum(a: nat, b: nat, d: nat)
    requires d > 0
    ensures a / d + b / d <= (a + b) / d <= a / d + b / d + 1
  {
    var q, r := a / d + b / d, a % d + b % d;
    assert a == d * (a / d) + a % d && b == d * (b / d) + b % d;
    assert a + b == d * q + r;
    if r < d {
      QuotientUnique(a + b, d, q, r);
    } else {
      assert a + b == d * (q + 1) + (r - d);
      QuotientUnique(a + b, d, q + 1, r - d);
    }
  }

  lemma ExactAdds(g0: nat, g1: nat, g2: nat, liquidity: nat)
    requires g0 <= g1 <= g2
    ensures var parts := Exact(g0, g1, liquidity) + Exact(g1, g2, liquidity);
            parts <= Exact(g0, g2, liquidity) <= parts + 1
  {
    assert (g1 - g0) * liquidity + (g2 - g1) * liquidity == (g2 - g0) * liquidity;
    FloorOfSum((g1 - g0) * liquidity, (g2 - g1) * liquidity, Q64);
  }

  lemma DeltaIsLowBits(g0: u128, g1: u128, liquidity: u128)
    requires g0 <= g1
    ensures DeltaFromGrowth(Some(g0), Some(g1), Some(liquidity)) == Some(Exact(g0, g1, liquidity) % TWO128)
  {
    if g1 > g0 && liquidity > 0 {
      NeverSaturates(g1 - g0, liquidity);
    } else {
      ZeroFee(g1 - g0, liquidity);
    }
  }

  /** The liquidity of an interval is that of its end, or of its start when the end has none. */
  predicate LiquidityIs(p0: Point, p1: Point, liquidity: u128) {
    p1.liquidity == Some(liquidity) || (p1.liquidity == None && p0.liquidity == Some(liquidity))
  }

  /** Without growth at both ends or any liquidity the counters decide, and they never count back. */
  lemma CountersStandIn(side: Side, p0: Point, p1: Point)
    requires Growth(side, p0).None? || Growth(side, p1).None? || (p0.liquidity.None? && p1.liquidity.None?)
    ensures var difference := Counter(side, p1) - Counter(side, p0);
            Interval(side, p0, p1) == if difference > 0 then difference else 0
  {
  }

  /** Growth that goes back counts as none. */
  lemma ShrinkingIsFree(side: Side, p0: Point, p1: Point, liquidity: u128)
    requires Growth(side, p0).Some? && Growth(side, p1).Some? && LiquidityIs(p0, p1, liquidity)
    requires Growth(side, p0).value > Growth(side, p1).value
    ensures Interval(side, p0, p1) == 0
  {
  }

  /** The code computes the exact floor exactly while the quotient fits 128 bits; beyond that it wraps. */
  lemma IntervalIsExact(side: Side, p0: Point, p1: Point, liquidity: u128)
    requires Growth(side, p0).Some? && Growth(side, p1).Some? && LiquidityIs(p0, p1, liquidity)
    requires Growth(side, p0).value <= Growth(side, p1).value
    ensures var exact := Exact(Growth(side, p0).value, Growth(side, p1).value, liquidity);
            && Interval(side, p0, p1) == exact % TWO128
            && (Interval(side, p0, p1) == exact <==> exact < TWO128)
  {
    DeltaIsLowBits(Growth(side, p0).value, Growth(side, p1).value, liquidity);
  }

  /** Both growths of an interval, token by token. */
  lemma GrowthOfBothTokens(p0: Point, p1: Point, liquidity: u128, a0: u128, a1: u128, b0: u128, b1: u128)
    requires p0.growthA == Some(a0) && p1.growthA == Some(a1) && a0 <= a1
    requires p0.growthB == Some(b0) && p1.growthB == Some(b1) && b0 <= b1
    requires LiquidityIs(p0, p1, liquidity)
    ensures Interval(A, p0, p1) == Exact(a0, a1, liquidity) % TWO128
    ensures Interval(B, p0, p1) == Exact(b0, b1, liquidity) % TWO128
  {
    IntervalIsExact(A, p0, p1, liquidity);
    IntervalIsExact(B, p0, p1, liquidity);
  }

  /** And both counters where no growth is known. */
  lemma CountersOfBothTokens(p0: Point, p1: Point)
    requires p0.growthA == p1.growthA == p0.growthB == p1.growthB == None
    requires p0.protocolA <= p1.protocolA && p0.protocolB <= p1.protocolB
    ensures Interval(A, p0, p1) == p1.protocolA - p0.protocolA
    ensures Interval(B, p0, p1) == p1.protocolB - p0.protocolB
  {
    CountersStandIn(A, p0, p1);
    CountersStandIn(B, p0, p1);
  }

  lemma ZeroFee(a: nat, b: nat)
    requires a == 0 || b == 0
    ensures a * b / Q64 == 0
  {
  }

  lemma ExactMonotone(g0: nat, g1: nat, g2: nat, liquidity: nat)
    requires g0 <= g1 <= g2
    ensures Exact(g1, g2, liquidity) <= Exact(g0, g2, liquidity) && Exact(g0, g1, liquidity) <= Exact(g0, g2, liquidity)
  {
    ExactAdds(g0, g1, g2, liquidity);
  }

  /**
   With constant liquidity and growing counters, more snapshots never create fees: the floors add
   up to at most the single floor over the whole time, whatever the timestamps.
   */
  lemma {:induction false} FloorsBelow(side: Side, pts: seq<Point>, liquidity: u128, n: nat)
    requires n < |pts| && Growing(side, pts, liquidity)
    requires Exact(Growth(side, pts[0]).value, Growth(side, pts[n]).value, liquidity) < TWO128
    ensures FeesUpTo(side, pts, n) <= Exact(Growth(side, pts[0]).value, Growth(side, pts[n]).value, liquidity)
  {
    if n > 0 {
      var g0, g1, g2 := Growth(side, pts[0]).value, Growth(side, pts[n - 1]).value, Growth(side, pts[n]).value;
      ExactMonotone(g0, g1, g2, liquidity);
      FloorsBelow(side, pts, liquidity, n - 1);
      ExactAdds(g0, g1, g2, liquidity);
      IntervalIsExact(side, pts[n - 1], pts[n], liquidity);
    }
  }

  /** With strictly increasing timestamps at most one raw unit is lost per extra interval. */
  lemma {:induction false} FloorsAbove(side: Side, pts: seq<Point>, liquidity: u128, n: nat)
    requires 0 < n < |pts| && Growing(side, pts, liquidity) && StrictlyLater(pts)
    requires Exact(Growth(side, pts[0]).value, Growth(side, pts[n]).value, liquidity) < TWO128
    ensures Exact(Growth(side, pts[0]).value, Growth(side, pts[n]).value, liquidity) - (n - 1) <= FeesUpTo(side, pts, n)
  {
    var g0, g1, g2 := Growth(side, pts[0]).value, Growth(side, pts[n - 1]).value, Growth(side, pts[n]).value;
    ExactMonotone(g0, g1, g2, liquidity);
    IntervalIsExact(side, pts[n - 1], pts[n], liquidity);
    assert pts[n - 1].ts < pts[n].ts;
    if n > 1 {
      FloorsAbove(side, pts, liquidity, n - 1);
      ExactAdds(g0, g1, g2, liquidity);
    } else {
      assert FeesUpTo(side, pts, 0) == 0;
    }
  }

  predicate Counting(side: Side, pts: seq<Point>) {
    && (forall i :: 0 <= i < |pts| ==> Growth(side, pts[i]).None?)
    && (forall i :: 0 < i < |pts| ==> Counter(side, pts[i - 1]) <= Counter(side, pts[i]))
  }

  /** The protocol-counter fallback telescopes exactly. */
  lemma {:induction false} CountersTelescope(side: Side, pts: seq<Point>, n: nat)
    requires n < |pts| && Counting(side, pts) && StrictlyLater(pts)
    ensures Counter(side, pts[0]) <= Counter(side, pts[n])
    ensures FeesUpTo(side, pts, n) == Counter(side, pts[n]) - Counter(side, pts[0])
  {
    if n > 0 {
      CountersTelescope(side, pts, n - 1);
      assert pts[n - 1].ts < pts[n].ts && Counter(side, pts[n - 1]) <= Counter(side, pts[n]);
      assert Growth(side, pts[n - 1]).None?;
    }
  }

  // ---------------------------------------------------------------------------------------
  // From raw floors to the buckets
  // ---------------------------------------------------------------------------------------

  /** A raw unit is never worth less than nothing, nor more than `usdA` or `usdB`. */
  ghost predicate WorthAtMost(path: Path, usdA: real, usdB: real) {
    forall p, i :: 0.0 <= path.usdA(p, i) <= usdA && 0.0 <= path.usdB(p, i) <= usdB
  }

  function Worth(rawA: nat, rawB: nat, usdA: real, usdB: real): real { rawA as real * usdA + rawB as real * usdB }

  lemma UnitsBelow(raw: nat, usd: real, most: real)
    requires 0.0 <= usd <= most
    ensures 0.0 <= raw as real * usd <= raw as real * most
  {
  }

  lemma WorthAdds(a: nat, b: nat, c: nat, d: nat, usdA: real, usdB: real)
    ensures Worth(a + c, b + d, usdA, usdB) == Worth(a, b, usdA, usdB) + Worth(c, d, usdA, usdB)
  {
  }

  lemma WorthGrows(a: nat, b: nat, c: nat, d: nat, usdA: real, usdB: real)
    requires a <= c && b <= d && usdA >= 0.0 && usdB >= 0.0
    ensures 0.0 <= Worth(a, b, usdA, usdB) <= Worth(c, d, usdA, usdB)
  {
    WorthAdds(a, b, c - a, d - b, usdA, usdB);
    UnitsBelow(a, usdA, usdA);
    UnitsBelow(b, usdB, usdB);
    UnitsBelow(c - a, usdA, usdA);
    UnitsBelow(d - b, usdB, usdB);
  }

  function Amount(row: Option<Row>): real { if row.Some? then row.value.amount else 0.0 }

  lemma UsdAtMost(path: Path, p0: Point, p1: Point, index: nat, usdA: real, usdB: real)
    requires WorthAtMost(path, usdA, usdB)
    ensures Usd(path, p0, p1, index) <= Worth(Interval(A, p0, p1), Interval(B, p0, p1), usdA, usdB)
  {
    UnitsBelow(Interval(A, p0, p1), path.usdA(p1, index), usdA);
    UnitsBelow(Interval(B, p0, p1), path.usdB(p1, index), usdB);
  }

  lemma ContributionAtMost(path: Path, p0: Point, p1: Point, usdA: real, usdB: real)
    requires WorthAtMost(path, usdA, usdB) && usdA >= 0.0 && usdB >= 0.0
    ensures Amount(Contribution(path, p0, p1)) <= Worth(Counted(A, p0, p1), Counted(B, p0, p1), usdA, usdB)
  {
    var row := Contribution(path, p0, p1);
    if row.Some? {
      UsdAtMost(path, p0, p1, row.value.index, usdA, usdB);
    } else {
      WorthGrows(0, 0, Counted(A, p0, p1), Counted(B, p0, p1), usdA, usdB);
    }
  }

  lemma AtMostNext(path: Path, p0: Point, p1: Point, rows: seq<Option<Row>>, a: nat, b: nat, usdA: real, usdB: real)
    requires WorthAtMost(path, usdA, usdB) && usdA >= 0.0 && usdB >= 0.0 && Total(rows) <= Worth(a, b, usdA, usdB)
    ensures Total(rows + [Contribution(path, p0, p1)]) <=
            Worth(a + Counted(A, p0, p1), b + Counted(B, p0, p1), usdA, usdB)
  {
    ContributionAtMost(path, p0, p1, usdA, usdB);
    TotalStep(rows, Contribution(path, p0, p1), a, b, Counted(A, p0, p1), Counted(B, p0, p1), usdA, usdB);
  }

  lemma {:induction false} TotalAtMost(path: Path, pts: seq<Point>, n: nat, usdA: real, usdB: real)
    requires n < |pts| && WorthAtMost(path, usdA, usdB) && usdA >= 0.0 && usdB >= 0.0
    ensures Total(Contributions(path, pts, n)) <= Worth(FeesUpTo(A, pts, n), FeesUpTo(B, pts, n), usdA, usdB)
  {
    if n > 0 {
      TotalAtMost(path, pts, n - 1, usdA, usdB);
      AtMostNext(path, pts[n - 1], pts[n], Contributions(path, pts, n - 1),
                 FeesUpTo(A, pts, n - 1), FeesUpTo(B, pts, n - 1), usdA, usdB);
    }
  }

  lemma TotalStep(rows: seq<Option<Row>>, row: Option<Row>, a: nat, b: nat, c: nat, d: nat, usdA: real, usdB: real)
    requires Total(rows) <= Worth(a, b, usdA, usdB) && Amount(row) <= Worth(c, d, usdA, usdB)
    ensures Total(rows + [row]) <= Worth(a + c, b + d, usdA, usdB)
  {
    assert (rows + [row])[..|rows|] == rows;
    WorthAdds(a, b, c, d, usdA, usdB);
  }

  /** The exact fee of one token over the whole time. */
  function WholeFee(side: Side, pts: seq<Point>, liquidity: u128): nat
    requires pts != [] && Growing(side, pts, liquidity)
  {
    Exact(Growth(side, pts[0]).value, Growth(side, pts[|pts| - 1]).value, liquidity)
  }

  /**
   With constant liquidity and growing counters all buckets of a path together hold at most what
   the fees of the whole time are worth, however many snapshots there are.
   */
  lemma BucketsHoldAtMost(path: Path, pts: seq<Point>, liquidity: u128, usdA: real, usdB: real)
    requires pts != [] && Growing(A, pts, liquidity) && Growing(B, pts, liquidity)
    requires WholeFee(A, pts, liquidity) < TWO128 && WholeFee(B, pts, liquidity) < TWO128
    requires WorthAtMost(path, usdA, usdB) && usdA >= 0.0 && usdB >= 0.0
    ensures SumBelow(Filed(Contributions(path, pts, |pts| - 1)), path.steps)
            <= Worth(WholeFee(A, pts, liquidity), WholeFee(B, pts, liquidity), usdA, usdB)
  {
    var n: nat := |pts| - 1;
    NothingLost(path, pts);
    TotalAtMost(path, pts, n, usdA, usdB);
    FloorsBelow(A, pts, liquidity, n);
    FloorsBelow(B, pts, liquidity, n);
    WorthGrows(FeesUpTo(A, pts, n), FeesUpTo(B, pts, n),
               WholeFee(A, pts, liquidity), WholeFee(B, pts, liquidity), usdA, usdB);
  }

  // ---------------------------------------------------------------------------------------
  // Nothing missing
  // ---------------------------------------------------------------------------------------

  /** A raw unit is worth the same everywhere. */
  ghost predicate WorthExactly(path: Path, usdA: real, usdB: real) {
    forall p, i :: path.usdA(p, i) == usdA && path.usdB(p, i) == usdB
  }

  /** The middle of an interval lies on the path. */
  predicate OnPath(path: Path, p0: Point, p1: Point) {
    var seconds := if path.stepSeconds > 1 then path.stepSeconds else 1;
    path.start <= Middle(p0.ts, p1.ts) < path.start + path.steps * seconds
  }

  predicate AllOnPath(path: Path, pts: seq<Point>) { forall i :: 0 < i < |pts| ==> OnPath(path, pts[i - 1], pts[i]) }

  lemma QuotientBelow(v: nat, d: nat, n: nat)
    requires d > 0 && v < n * d
    ensures v / d < n
  {
    DivisionSpan(v, d);
    CancelFactor(v / d, n, d);
  }

  lemma CancelFactor(a: int, b: int, d: int)
    requires d > 0 && a * d < b * d
    ensures a < b
  {
    assert (b - a) * d > 0;
  }

  lemma PositiveWorth(rawA: nat, rawB: nat, usdA: real, usdB: real)
    requires usdA > 0.0 && usdB > 0.0
    ensures Worth(rawA, rawB, usdA, usdB) >= 0.0
    ensures Worth(rawA, rawB, usdA, usdB) > 0.0 <==> rawA > 0 || rawB > 0
  {
    PositiveUnits(rawA, usdA);
    PositiveUnits(rawB, usdB);
  }

  lemma PositiveUnits(raw: nat, usd: real)
    requires usd > 0.0
    ensures raw as real * usd >= 0.0 && (raw as real * usd > 0.0 <==> raw > 0)
  {
  }

  /** Units are valued at the later snapshot of an interval and the step of its middle. */
  lemma UsdIsWorth(path: Path, p0: Point, p1: Point, index: nat, usdA: real, usdB: real)
    requires path.usdA(p1, index) == usdA && path.usdB(p1, index) == usdB
    ensures Usd(path, p0, p1, index) == Worth(Interval(A, p0, p1), Interval(B, p0, p1), usdA, usdB)
  {
  }

  /** An interval on the path files the full worth of both tokens. */
  lemma ContributionExactly(path: Path, p0: Point, p1: Point, usdA: real, usdB: real)
    requires WorthExactly(path, usdA, usdB) && usdA > 0.0 && usdB > 0.0
    requires p0.ts < p1.ts && OnPath(path, p0, p1)
    ensures Amount(Contribution(path, p0, p1)) == Worth(Counted(A, p0, p1), Counted(B, p0, p1), usdA, usdB)
  {
    var delta := Middle(p0.ts, p1.ts) - path.start;
    var index := delta / AtLeastOneSecond(path.stepSeconds);
    QuotientBelow(delta, AtLeastOneSecond(path.stepSeconds), path.steps);
    UsdIsWorth(path, p0, p1, index, usdA, usdB);
    PositiveWorth(Interval(A, p0, p1), Interval(B, p0, p1), usdA, usdB);
  }

  lemma TotalExactStep(rows: seq<Option<Row>>, row: Option<Row>, a: nat, b: nat, c: nat, d: nat, usdA: real, usdB: real)
    requires Total(rows) == Worth(a, b, usdA, usdB) && Amount(row) == Worth(c, d, usdA, usdB)
    ensures Total(rows + [row]) == Worth(a + c, b + d, usdA, usdB)
  {
    assert (rows + [row])[..|rows|] == rows;
    WorthAdds(a, b, c, d, usdA, usdB);
  }

  lemma ExactlyNext(path: Path, p0: Point, p1: Point, rows: seq<Option<Row>>, a: nat, b: nat, usdA: real, usdB: real)
    requires WorthExactly(path, usdA, usdB) && usdA > 0.0 && usdB > 0.0
    requires p0.ts < p1.ts && OnPath(path, p0, p1) && Total(rows) == Worth(a, b, usdA, usdB)
    ensures Total(rows + [Contribution(path, p0, p1)]) ==
            Worth(a + Counted(A, p0, p1), b + Counted(B, p0, p1), usdA, usdB)
  {
    ContributionExactly(path, p0, p1, usdA, usdB);
    TotalExactStep(rows, Contribution(path, p0, p1), a, b, Counted(A, p0, p1), Counted(B, p0, p1), usdA, usdB);
  }

  lemma {:induction false} TotalExactly(path: Path, pts: seq<Point>, n: nat, usdA: real, usdB: real)
    requires n < |pts| && WorthExactly(path, usdA, usdB) && usdA > 0.0 && usdB > 0.0
    requires StrictlyLater(pts) && AllOnPath(path, pts)
    ensures Total(Contributions(path, pts, n)) == Worth(FeesUpTo(A, pts, n), FeesUpTo(B, pts, n), usdA, usdB)
  {
    if n > 0 {
      assert pts[n - 1].ts < pts[n].ts && OnPath(path, pts[n - 1], pts[n]);
      TotalExactly(path, pts, n - 1, usdA, usdB);
      ExactlyNext(path, pts[n - 1], pts[n], Contributions(path, pts, n - 1),
                  FeesUpTo(A, pts, n - 1), FeesUpTo(B, pts, n - 1), usdA, usdB);
    }
  }

  /** With constant unit values and all middles on the path the buckets hold exactly the raw fees of both tokens. */
  lemma BucketsHoldExactly(path: Path, pts: seq<Point>, usdA: real, usdB: real)
    requires pts != [] && WorthExactly(path, usdA, usdB) && usdA > 0.0 && usdB > 0.0
    requires StrictlyLater(pts) && AllOnPath(path, pts)
    ensures SumBelow(Filed(Contributions(path, pts, |pts| - 1)), path.steps) ==
            Worth(FeesUpTo(A, pts, |pts| - 1), FeesUpTo(B, pts, |pts| - 1), usdA, usdB)
  {
    NothingLost(path, pts);
    TotalExactly(path, pts, |pts| - 1, usdA, usdB);
  }

  lemma MissingAtMost(wholeA: nat, wholeB: nat, a: nat, b: nat, missing: nat, usdA: real, usdB: real)
    requires wholeA <= a + missing && wholeB <= b + missing && usdA >= 0.0 && usdB >= 0.0
    ensures Worth(wholeA, wholeB, usdA, usdB) <= Worth(a, b, usdA, usdB) + Worth(missing, missing, usdA, usdB)
  {
    WorthAdds(a, b, missing, missing, usdA, usdB);
    WorthGrows(wholeA, wholeB, a + missing, b + missing, usdA, usdB);
  }

  /** Together with the floors: at most one raw unit of each token is missing per extra interval. */
  lemma BucketsHoldAtLeast(path: Path, pts: seq<Point>, liquidity: u128, usdA: real, usdB: real)
    requires |pts| > 1 && Growing(A, pts, liquidity) && Growing(B, pts, liquidity)
    requires WholeFee(A, pts, liquidity) < TWO128 && WholeFee(B, pts, liquidity) < TWO128
    requires WorthExactly(path, usdA, usdB) && usdA > 0.0 && usdB > 0.0
    requires StrictlyLater(pts) && AllOnPath(path, pts)
    ensures Worth(WholeFee(A, pts, liquidity), WholeFee(B, pts, liquidity), usdA, usdB)
            <= SumBelow(Filed(Contributions(path, pts, |pts| - 1)), path.steps)
               + Worth(|pts| - 2, |pts| - 2, usdA, usdB)
  {
    var n: nat := |pts| - 1;
    BucketsHoldExactly(path, pts, usdA, usdB);
    FloorsAbove(A, pts, liquidity, n);
    FloorsAbove(B, pts, liquidity, n);
    MissingAtMost(WholeFee(A, pts, liquidity), WholeFee(B, pts, liquidity),
                  FeesUpTo(A, pts, n), FeesUpTo(B, pts, n), n - 1, usdA, usdB);
  }
}
