/**
 Per-step pool fees from locally stored swaps, starting from already parsed rows.

 Fees decoded from single swaps are preferred; a step without any gets a share of the
 candle-implied pool fees in proportion to its transaction count. The program holds this twice, as
 a library function and inline in the backtest command; both are here, and `CopiesAgree` says they
 compute the same thing. Decimals are reals and counts are kept as the decimals they become.
 */
module LocalFees {
  import opened Arithmetic
  import opened Options
  import opened Backtest
  import opened Buckets
  import opened Decimals
  import opened Texts
  import FeeFlow

  datatype DecodedRow = DecodedRow(
    status: Option<string>, success: Option<bool>, blockTime: Option<int>,
    amountIn: Option<nat>, direction: Option<string>)

  datatype RawRow = RawRow(err: Option<string>, blockTime: Option<int>)

  datatype Grid = Grid(
    steps: seq<Step>, resolution: u64, decimalsA: nat, decimalsB: nat, feeRate: real, requireDecodeOk: bool)

  // ---------------------------------------------------------------------------------------
  // Rows
  // ---------------------------------------------------------------------------------------

  function Bucket(g: Grid, time: int): (index: int)
    requires g.steps != []
    ensures index >= 0 <==> time >= g.steps[0].ts
  {
    var delta := time - g.steps[0].ts;
    if delta < 0 then -1 else delta / (if g.resolution > 1 then g.resolution else 1)
  }

  /** A time falls in the bucket whose span holds it. */
  lemma BucketSpan(g: Grid, time: int, k: nat)
    requires g.steps != []
    ensures var width := if g.resolution > 1 then g.resolution else 1;
            Bucket(g, time) == k <==> g.steps[0].ts + k * width <= time < g.steps[0].ts + k * width + width
  {
    var width: int := if g.resolution > 1 then g.resolution else 1;
    var delta := time - g.steps[0].ts;
    if delta >= 0 {
      assert delta == width * (delta / width) + delta % width;
      if k * width <= delta < k * width + width {
        QuotientUnique(delta, width, k, delta - k * width);
      }
    } else {
      assert k * width >= 0;
    }
  }

  const OK_STATUSES: set<string> := {"ok", "ok_traded_event", "ok_swap_event"}

  function FeeOf(g: Grid, row: DecodedRow, step: Step): real
    requires row.amountIn.Some?
  {
    if row.direction == Some("a_to_b")
    then row.amountIn.value as real / Pow10(g.decimalsA) * step.priceUsd * g.feeRate
    else row.amountIn.value as real / Pow10(g.decimalsB) * step.quoteUsd * g.feeRate
  }

  /** What a decoded row adds: only successful, timed, in-path swaps with a positive fee count. */
  function DecodedFee(g: Grid, row: DecodedRow): Option<Row>
    requires g.steps != []
  {
    if g.requireDecodeOk && (row.status.None? || row.status.value !in OK_STATUSES) then None
    else if row.success != Some(true) || row.blockTime.None? || row.amountIn.None? then None
    else
      var index := Bucket(g, row.blockTime.value);
      if index < 0 || index >= |g.steps| then None
      else if FeeOf(g, row, g.steps[index]) > 0.0 then Some(Row(index, FeeOf(g, row, g.steps[index])))
      else None
  }

  /** What a raw row adds to the transaction counts: failed transactions do not count. */
  function Counted(g: Grid, row: RawRow): Option<Row>
    requires g.steps != []
  {
    if row.err.Some? && Trim(row.err.value) != [] && row.err.value != "None" then None
    else if row.blockTime.None? || Bucket(g, row.blockTime.value) < 0 then None
    else Some(Row(Bucket(g, row.blockTime.value), 1.0))
  }

  function DecodedRows(g: Grid, rows: seq<DecodedRow>, n: nat): (r: seq<Option<Row>>)
    requires g.steps != [] && n <= |rows|
    ensures |r| == n && PositiveRows(r)
    ensures forall i :: 0 <= i < n && r[i].Some? ==> r[i].value.index < |g.steps|
  {
    if n == 0 then [] else DecodedRows(g, rows, n - 1) + [DecodedFee(g, rows[n - 1])]
  }

  function CountedRows(g: Grid, rows: seq<RawRow>, n: nat): (r: seq<Option<Row>>)
    requires g.steps != [] && n <= |rows|
    ensures |r| == n && PositiveRows(r)
  {
    if n == 0 then [] else CountedRows(g, rows, n - 1) + [Counted(g, rows[n - 1])]
  }

  method DecodedSwapFees(g: Grid, rows: seq<DecodedRow>) returns (fees: Fees)
    ensures g.steps == [] ==> fees == None
    ensures g.steps != [] ==> fees == NonEmpty(Filed(DecodedRows(g, rows, |rows|)))
  {
    if g.steps == [] {
      return None;
    }
    var m: map<nat, real> := map[];
    for n := 0 to |rows|
      invariant m == Filed(DecodedRows(g, rows, n))
    {
      FiledNext(DecodedRows(g, rows, n), DecodedFee(g, rows[n]));
      m := FileDecoded(g, rows[n], m);
    }
    fees := if m == map[] then None else Some(m);
  }

  method FileDecoded(g: Grid, row: DecodedRow, m: map<nat, real>) returns (filed: map<nat, real>)
    requires g.steps != []
    ensures filed == Put(m, DecodedFee(g, row))
  {
    filed := m;
    if g.requireDecodeOk {
      if row.status.None? || row.status.value !in OK_STATUSES {
        return;
      }
    }
    if !row.success.GetOr(false) || row.blockTime.None? {
      return;
    }
    var index := Bucket(g, row.blockTime.value);
    if index < 0 || index >= |g.steps| || row.amountIn.None? {
      return;
    }
    var fee := FeeOf(g, row, g.steps[index]);
    if fee > 0.0 {
      filed := m[index := (if index in m then m[index] else 0.0) + fee];
    }
  }

  method CountRaw(g: Grid, row: RawRow, m: map<nat, real>) returns (counts: map<nat, real>)
    requires g.steps != []
    ensures counts == Put(m, Counted(g, row))
  {
    counts := m;
    if row.err.Some? && Trim(row.err.value) != [] && row.err.value != "None" {
      return;
    }
    if row.blockTime.None? {
      return;
    }
    var index := Bucket(g, row.blockTime.value);
    if index < 0 {
      return;
    }
    counts := m[index := (if index in m then m[index] else 0.0) + 1.0];
  }

  method RawSwapCounts(g: Grid, rows: seq<RawRow>) returns (counts: Fees)
    ensures g.steps == [] ==> counts == None
    ensures g.steps != [] ==> counts == NonEmpty(Filed(CountedRows(g, rows, |rows|)))
  {
    if g.steps == [] {
      return None;
    }
    var m: map<nat, real> := map[];
    for n := 0 to |rows|
      invariant m == Filed(CountedRows(g, rows, n))
    {
      FiledNext(CountedRows(g, rows, n), Counted(g, rows[n]));
      m := CountRaw(g, rows[n], m);
    }
    counts := if m == map[] then None else Some(m);
  }

  // ---------------------------------------------------------------------------------------
  // Timing
  // ---------------------------------------------------------------------------------------

  function PoolFeesOf(steps: seq<Step>, feeRate: real): real {
    if steps == [] then 0.0
    else PoolFeesOf(steps[..|steps| - 1], feeRate) + steps[|steps| - 1].volumeUsd * feeRate
  }

  method TotalPoolFees(g: Grid) returns (total: real)
    ensures total == PoolFeesOf(g.steps, g.feeRate)
  {
    total := 0.0;
    for n := 0 to |g.steps|
      invariant total == PoolFeesOf(g.steps[..n], g.feeRate)
    {
      assert g.steps[..n + 1][..n] == g.steps[..n];
      total := total + g.steps[n].volumeUsd * g.feeRate;
    }
    assert g.steps[..|g.steps|] == g.steps;
  }

  function Share(pool: real, count: real, total: real): real
    requires total != 0.0
  {
    pool * (count / total)
  }

  predicate Shared(counts: map<nat, real>, total: real, pool: real, index: nat)
    requires total != 0.0
  {
    index in counts && counts[index] != 0.0 && Share(pool, counts[index], total) > 0.0
  }

  function Shares(counts: map<nat, real>, total: real, pool: real): map<nat, real>
    requires total != 0.0
  {
    map index | index in counts && Shared(counts, total, pool, index) :: Share(pool, counts[index], total)
  }

  method ShareOut(counts: map<nat, real>, total: real, pool: real) returns (m: map<nat, real>)
    requires total != 0.0
    ensures m == Shares(counts, total, pool)
  {
    m := map[];
    var todo := counts.Keys;
    while todo != {}
      invariant todo <= counts.Keys
      invariant m == map index | index in counts && index !in todo && Shared(counts, total, pool, index) ::
                       Share(pool, counts[index], total)
    {
      var index :| index in todo;
      todo := todo - {index};
      var c := counts[index];
      if c == 0.0 {
        continue;
      }
      var v := Share(pool, c, total);
      if v > 0.0 {
        m := m[index := v];
      }
    }
  }

  ghost function Timing(g: Grid, counts: map<nat, real>): Fees {
    var total, pool := SumOfValues(counts), PoolFeesOf(g.steps, g.feeRate);
    if total == 0.0 || pool <= 0.0 then None else NonEmpty(Shares(counts, total, pool))
  }

  method DistributePoolFees(g: Grid, counts: map<nat, real>) returns (fees: Fees)
    ensures fees == Timing(g, counts)
  {
    var total := SumValues(counts);
    if total == 0.0 {
      return None;
    }
    var pool := TotalPoolFees(g);
    if pool <= 0.0 {
      return None;
    }
    var m := ShareOut(counts, total, pool);
    fees := if m == map[] then None else Some(m);
  }

  // ---------------------------------------------------------------------------------------
  // The two copies
  // ---------------------------------------------------------------------------------------

  method Overwrite(base: map<nat, real>, over: map<nat, real>) returns (m: map<nat, real>)
    ensures m == base + over
  {
    m := base;
    var todo := over.Keys;
    while todo != {}
      invariant todo <= over.Keys
      invariant m == base + map index | index in over && index !in todo :: over[index]
    {
      var index :| index in todo;
      todo := todo - {index};
      m := m[index := over[index]];
    }
    assert over == map index | index in over && index !in todo :: over[index];
  }

  /** The library's merge. */
  ghost function LibraryFees(g: Grid, decoded: Fees, counts: Fees): Fees {
    var timing := if counts.Some? then Timing(g, counts.value) else None;
    match (decoded, timing)
    case (None, None) => None
    case (Some(d), None) => Some(d)
    case (None, Some(t)) => Some(t)
    case (Some(d), Some(t)) => NonEmpty(t + d)
  }

  method BuildLocalPoolFees(g: Grid, decodedRows: seq<DecodedRow>, rawRows: seq<RawRow>) returns (fees: Fees)
    ensures fees == LibraryFees(g, DecodedIndex(g, decodedRows), CountIndex(g, rawRows))
  {
    var decoded := DecodedSwapFees(g, decodedRows);
    var counts := RawSwapCounts(g, rawRows);
    var timing: Fees := None;
    if counts.Some? {
      timing := DistributePoolFees(g, counts.value);
    }
    match (decoded, timing) {
      case (None, None) => fees := None;
      case (Some(d), None) => fees := Some(d);
      case (None, Some(t)) => fees := Some(t);
      case (Some(d), Some(t)) =>
        var m := Overwrite(t, d);
        fees := if m == map[] then None else Some(m);
    }
  }

  function DecodedIndex(g: Grid, rows: seq<DecodedRow>): Fees {
    if g.steps == [] then None else NonEmpty(Filed(DecodedRows(g, rows, |rows|)))
  }

  function CountIndex(g: Grid, rows: seq<RawRow>): Fees {
    if g.steps == [] then None else NonEmpty(Filed(CountedRows(g, rows, |rows|)))
  }

  predicate Unset(index: Fees) { index.None? || index.value == map[] }

  /** The backtest command's first block: decoded fees, filled up by timing. */
  ghost function InlineDecoded(g: Grid, swapIndex: Fees, decoded: Fees, counts: Fees): Fees {
    if !Unset(swapIndex) || decoded.None? then swapIndex
    else if counts.None? then decoded
    else
      var total, pool := SumOfValues(counts.value), PoolFeesOf(g.steps, g.feeRate);
      if total <= 0.0 || pool <= 0.0 then decoded
      else
        var m := Shares(counts.value, total, pool) + decoded.value;
        if m != map[] then Some(m) else decoded
  }

  /** Its second block: timing alone. */
  ghost function InlineTiming(g: Grid, swapIndex: Fees, counts: Fees): Fees {
    if !Unset(swapIndex) || counts.None? then swapIndex
    else
      var total, pool := SumOfValues(counts.value), PoolFeesOf(g.steps, g.feeRate);
      if total <= 0.0 || pool <= 0.0 then swapIndex
      else
        var m := Shares(counts.value, total, pool);
        if m != map[] then Some(m) else swapIndex
  }

  /** The backtest command's merge, which starts from the index of the Dune swaps, if any. */
  method MergeInline(g: Grid, swapIndex: Fees, decoded: Fees, counts: Fees) returns (index: Fees)
    ensures index == InlineTiming(g, InlineDecoded(g, swapIndex, decoded, counts), counts)
  {
    index := swapIndex;
    if index.GetOr(map[]) == map[] && decoded.Some? {
      index := decoded;
      if counts.Some? {
        var total := SumValues(counts.value);
        if total > 0.0 {
          var pool := TotalPoolFees(g);
          if pool > 0.0 {
            var m := ShareOut(counts.value, total, pool);
            m := Overwrite(m, decoded.value);
            if m != map[] {
              index := Some(m);
            }
          }
        }
      }
    }
    if index.GetOr(map[]) == map[] && counts.Some? {
      var total := SumValues(counts.value);
      if total > 0.0 {
        var pool := TotalPoolFees(g);
        if pool > 0.0 {
          var m := ShareOut(counts.value, total, pool);
          if m != map[] {
            index := Some(m);
          }
        }
      }
    }
  }

  ghost function BacktestFees(g: Grid, swapIndex: Fees, decoded: Fees, counts: Fees): Fees {
    InlineTiming(g, InlineDecoded(g, swapIndex, decoded, counts), counts)
  }

  /**
   The two copies agree on the same rows when there are no Dune swaps; when there are, the inline
   copy keeps them.
   */
  lemma CopiesAgree(g: Grid, decodedRows: seq<DecodedRow>, rawRows: seq<RawRow>, swapIndex: Fees)
    ensures var decoded, counts := DecodedIndex(g, decodedRows), CountIndex(g, rawRows);
            var library := LibraryFees(g, decoded, counts);
            BacktestFees(g, swapIndex, decoded, counts) ==
              if Unset(swapIndex) then (if library.Some? then library else swapIndex) else swapIndex
  {
    var decoded, counts := DecodedIndex(g, decodedRows), CountIndex(g, rawRows);
    CountsPositive(g, rawRows);
    if decoded.Some? && counts.Some? {
      KeepsKeys(SumOfValues(counts.value), PoolFeesOf(g.steps, g.feeRate), counts.value, decoded.value);
    }
  }

  lemma KeepsKeys(total: real, pool: real, counts: map<nat, real>, decoded: map<nat, real>)
    requires decoded != map[] && total != 0.0
    ensures Shares(counts, total, pool) + decoded != map[]
  {
    var k :| k in decoded;
    assert k in Shares(counts, total, pool) + decoded;
  }

  lemma CountsPositive(g: Grid, rows: seq<RawRow>)
    ensures var counts := CountIndex(g, rows);
            counts.Some? ==> PositiveValues(counts.value) && SumOfValues(counts.value) > 0.0
  {
    var counts := CountIndex(g, rows);
    if counts.Some? {
      FiledPositive(CountedRows(g, rows, |rows|));
      var k :| k in counts.value;
      HasBound(counts.value.Keys);
      var n: nat :| Bounds(n, counts.value.Keys);
      SumUpTo(counts.value, n);
      SumBelowGrows(counts.value, 0, n);
    }
  }

  // ---------------------------------------------------------------------------------------
  // What the fees are
  // ---------------------------------------------------------------------------------------

  lemma SharePositive(pool: real, c: real, total: real)
    requires pool > 0.0 && total > 0.0 && c > 0.0
    ensures Share(pool, c, total) > 0.0
  {
    assert c / total > 0.0;
  }

  lemma ShareAdds(pool: real, a: real, b: real, total: real)
    requires total != 0.0
    ensures Share(pool, a + b, total) == Share(pool, a, total) + Share(pool, b, total)
  {
    assert (a + b) / total == a / total + b / total;
  }

  lemma ShareOfAll(pool: real, total: real)
    requires total > 0.0
    ensures Share(pool, total, total) == pool
  {
    assert total / total == 1.0;
  }

  /** Reading the timing map up to a step gives the pool fees in proportion to the counts read. */
  lemma {:induction false} SharesInProportion(counts: map<nat, real>, total: real, pool: real, n: nat)
    requires PositiveValues(counts) && total > 0.0 && pool > 0.0
    ensures SumBelow(Shares(counts, total, pool), n) == Share(pool, SumBelow(counts, n), total)
  {
    if n > 0 {
      SharesInProportion(counts, total, pool, n - 1);
      ShareAdds(pool, SumBelow(counts, n - 1), At(counts, n - 1), total);
      if n - 1 in counts {
        SharePositive(pool, counts[n - 1], total);
      }
    }
  }

  /** The timing map exists exactly when there are counts and fees, and sums to the pool fees. */
  lemma TimingIsExact(g: Grid, counts: map<nat, real>)
    requires PositiveValues(counts) && counts != map[] && SumOfValues(counts) > 0.0
    ensures Timing(g, counts).Some? <==> PoolFeesOf(g.steps, g.feeRate) > 0.0
    ensures Timing(g, counts).Some? ==>
              && Timing(g, counts).value.Keys == counts.Keys
              && SumOfValues(Timing(g, counts).value) == PoolFeesOf(g.steps, g.feeRate)
  {
    var total, pool := SumOfValues(counts), PoolFeesOf(g.steps, g.feeRate);
    if pool > 0.0 {
      var m := Shares(counts, total, pool);
      forall k | k in counts
        ensures k in m
      {
        SharePositive(pool, counts[k], total);
      }
      assert m.Keys == counts.Keys;
      var k :| k in counts;
      assert k in m;
      HasBound(counts.Keys);
      var n: nat :| Bounds(n, counts.Keys);
      SumUpTo(counts, n);
      SumUpTo(m, n);
      SharesInProportion(counts, total, pool, n);
      ShareOfAll(pool, total);
    }
  }

  /**
   A run reads only the steps of the path, but transactions after the last step are counted too:
   the fees read add up to the pool fees exactly when every counted row falls on the path.
   */
  lemma ReadInFull(g: Grid, rows: seq<RawRow>)
    requires g.steps != [] && CountIndex(g, rows).Some? && PoolFeesOf(g.steps, g.feeRate) > 0.0
    ensures var counts := CountIndex(g, rows).value;
            && Timing(g, counts).Some?
            && SumBelow(Timing(g, counts).value, |g.steps|) <= PoolFeesOf(g.steps, g.feeRate)
            && (SumBelow(Timing(g, counts).value, |g.steps|) == PoolFeesOf(g.steps, g.feeRate) <==>
                forall i :: 0 <= i < |rows| && Counted(g, rows[i]).Some? ==>
                  Counted(g, rows[i]).value.index < |g.steps|)
  {
    var counts := CountIndex(g, rows).value;
    CountsPositive(g, rows);
    TimingIsExact(g, counts);
    var m := Timing(g, counts).value;
    HasBound(counts.Keys);
    var b: nat :| Bounds(b, counts.Keys);
    var n := b + |g.steps|;
    SumUpTo(m, n);
    SumBelowGrows(m, |g.steps|, n);
    FiledHolds(CountedRows(g, rows, |rows|));
    CountedRowAt(g, rows, |rows|);
    var filed := CountedRows(g, rows, |rows|);
    if forall i :: 0 <= i < |rows| && Counted(g, rows[i]).Some? ==> Counted(g, rows[i]).value.index < |g.steps| {
      forall i | |g.steps| <= i < n
        ensures i !in m
      {
        assert !Touched(filed, i);
      }
    } else {
      var i :| 0 <= i < |rows| && Counted(g, rows[i]).Some? && Counted(g, rows[i]).value.index >= |g.steps|;
      assert filed[i].Some? && Touched(filed, filed[i].value.index);
    }
  }

  /** One step with a fee of 1, and one transaction an hour after it starts. */
  const LATE_GRID: Grid := Grid([Step(1.0, 1.0, 1.0, 1.0, 1.0, None, None, 0)], 3600, 0, 0, 1.0, true)
  const LATE_ROW: RawRow := RawRow(None, Some(3600))

  /** Transactions after the last step take their share of the fees away from the run. */
  lemma LateTransactionTakesAll()
    ensures PoolFeesOf(LATE_GRID.steps, LATE_GRID.feeRate) == 1.0
    ensures CountIndex(LATE_GRID, [LATE_ROW]).Some?
    ensures SumBelow(Timing(LATE_GRID, CountIndex(LATE_GRID, [LATE_ROW]).value).GetOr(map[]), 1) < 1.0
  {
    assert LATE_GRID.steps[..0] == [];
    assert Counted(LATE_GRID, LATE_ROW) == Some(Row(1, 1.0));
    assert CountedRows(LATE_GRID, [LATE_ROW], 1) == CountedRows(LATE_GRID, [LATE_ROW], 0) + [Some(Row(1, 1.0))];
    FiledNext([], Some(Row(1, 1.0)));
    assert 1 in CountIndex(LATE_GRID, [LATE_ROW]).value;
    ReadInFull(LATE_GRID, [LATE_ROW]);
    assert Counted(LATE_GRID, [LATE_ROW][0]).value.index >= |LATE_GRID.steps|;
  }

  lemma {:induction false} CountedRowAt(g: Grid, rows: seq<RawRow>, n: nat)
    requires g.steps != [] && n <= |rows|
    ensures forall i :: 0 <= i < n ==> CountedRows(g, rows, n)[i] == Counted(g, rows[i])
  {
    if n > 0 {
      CountedRowAt(g, rows, n - 1);
    }
  }

  /**
   Each bucket of the merged map is the decoded total where a decoded swap counted, and the timing
   share everywhere else.
   */
  lemma EachBucket(g: Grid, decodedRows: seq<DecodedRow>, rawRows: seq<RawRow>, index: nat)
    requires g.steps != []
    ensures var fees := LibraryFees(g, DecodedIndex(g, decodedRows), CountIndex(g, rawRows)).GetOr(map[]);
            var rows := DecodedRows(g, decodedRows, |decodedRows|);
            var counts := CountIndex(g, rawRows).GetOr(map[]);
            if Touched(rows, index) then index in fees && fees[index] == BucketTotal(rows, index)
            else if index in counts && PoolFeesOf(g.steps, g.feeRate) > 0.0
            then SumOfValues(counts) > 0.0 && index in fees &&
                 fees[index] == Share(PoolFeesOf(g.steps, g.feeRate), counts[index], SumOfValues(counts))
            else index !in fees
  {
    var decoded, counts := DecodedIndex(g, decodedRows), CountIndex(g, rawRows);
    FiledHolds(DecodedRows(g, decodedRows, |decodedRows|));
    CountsPositive(g, rawRows);
    MergeKeepsBoth(g, decoded, counts);
    if counts.Some? {
      TimingAt(g, counts.value, index);
    }
  }

  lemma MergeKeepsBoth(g: Grid, decoded: Fees, counts: Fees)
    ensures var timing := if counts.Some? then Timing(g, counts.value) else None;
            LibraryFees(g, decoded, counts).GetOr(map[]) == timing.GetOr(map[]) + decoded.GetOr(map[])
  {
  }

  lemma TimingAt(g: Grid, counts: map<nat, real>, index: nat)
    requires PositiveValues(counts) && counts != map[] && SumOfValues(counts) > 0.0
    ensures var timing := Timing(g, counts).GetOr(map[]);
            if index in counts && PoolFeesOf(g.steps, g.feeRate) > 0.0
            then index in timing &&
                 timing[index] == Share(PoolFeesOf(g.steps, g.feeRate), counts[index], SumOfValues(counts))
            else index !in timing
  {
    if index in counts && PoolFeesOf(g.steps, g.feeRate) > 0.0 {
      SharePositive(PoolFeesOf(g.steps, g.feeRate), counts[index], SumOfValues(counts));
    }
  }

  // ---------------------------------------------------------------------------------------
  // What decoded rows are worth
  // ---------------------------------------------------------------------------------------

  /** The row swaps `tokens` whole input tokens: of A when it goes from A to B, of B otherwise. */
  predicate SwapsIn(g: Grid, row: DecodedRow, tokens: real)
    requires row.amountIn.Some?
  {
    row.amountIn.value as real ==
      tokens * if row.direction == Some("a_to_b") then Pow10(g.decimalsA) else Pow10(g.decimalsB)
  }

  /** The USD value of the input tokens at the prices of a step. */
  function InputUsd(row: DecodedRow, tokens: real, step: Step): real {
    if row.direction == Some("a_to_b") then tokens * step.priceUsd else tokens * step.quoteUsd
  }

  lemma Whole(raw: real, tokens: real, unit: real)
    requires unit > 0.0 && raw == tokens * unit
    ensures raw / unit == tokens
  {
  }

  /** A row's fee is the rate of its input's value, A tokens at A's price and B tokens at the quote. */
  lemma FeeOfTokens(g: Grid, row: DecodedRow, step: Step, tokens: real)
    requires row.amountIn.Some? && SwapsIn(g, row, tokens)
    ensures FeeOf(g, row, step) == InputUsd(row, tokens, step) * g.feeRate
  {
    Whole(row.amountIn.value as real, tokens,
          if row.direction == Some("a_to_b") then Pow10(g.decimalsA) else Pow10(g.decimalsB));
  }

  /** A successful swap with a time on the path and a readable amount, decoded well where that is asked for. */
  predicate Eligible(g: Grid, row: DecodedRow)
    requires g.steps != []
  {
    && (g.requireDecodeOk ==>
          row.status == Some("ok") || row.status == Some("ok_traded_event") || row.status == Some("ok_swap_event"))
    && row.success == Some(true) && row.amountIn.Some? && row.blockTime.Some?
    && 0 <= Bucket(g, row.blockTime.value) < |g.steps|
  }

  /** A row counts exactly when it is eligible and has a positive fee, which goes to the bucket of its time. */
  lemma DecodedCounts(g: Grid, row: DecodedRow)
    requires g.steps != []
    ensures DecodedFee(g, row) ==
            if Eligible(g, row) && FeeOf(g, row, g.steps[Bucket(g, row.blockTime.value)]) > 0.0
            then Some(Row(Bucket(g, row.blockTime.value), FeeOf(g, row, g.steps[Bucket(g, row.blockTime.value)])))
            else None
  {
  }

  /** A raw row counts one exactly when it has a time from the start of the path on and no error text. */
  lemma CountedMeans(g: Grid, row: RawRow)
    requires g.steps != []
    ensures Counted(g, row) ==
            if row.blockTime.Some? && row.blockTime.value >= g.steps[0].ts
               && (row.err.None? || Trim(row.err.value) == [] || row.err.value == "None")
            then Some(Row(Bucket(g, row.blockTime.value), 1.0))
            else None
  {
  }

  /** The whole input tokens of a row. */
  function Tokens(g: Grid, row: DecodedRow): (tokens: real)
    requires row.amountIn.Some?
    ensures SwapsIn(g, row, tokens)
  {
    row.amountIn.value as real / if row.direction == Some("a_to_b") then Pow10(g.decimalsA) else Pow10(g.decimalsB)
  }

  /** The positive USD inputs of the eligible rows among the first `n`. */
  function TradedUsd(g: Grid, rows: seq<DecodedRow>, n: nat): real
    requires g.steps != [] && n <= |rows|
  {
    if n == 0 then 0.0
    else TradedUsd(g, rows, n - 1) + RowUsd(g, rows[n - 1])
  }

  function RowUsd(g: Grid, row: DecodedRow): real
    requires g.steps != []
  {
    if Eligible(g, row) then Max(InputUsd(row, Tokens(g, row), g.steps[Bucket(g, row.blockTime.value)]), 0.0) else 0.0
  }

  function Rated(usd: real, rate: real): real { usd * rate }

  lemma RatedFacts(a: real, b: real, rate: real)
    requires rate > 0.0
    ensures Rated(a, rate) + Rated(b, rate) == Rated(a + b, rate)
    ensures Rated(a, rate) > 0.0 <==> a > 0.0
    ensures Rated(0.0, rate) == 0.0
  {
  }

  lemma RowIsRated(g: Grid, row: DecodedRow)
    requires g.steps != [] && g.feeRate > 0.0
    ensures Rated(RowUsd(g, row), g.feeRate) ==
            if DecodedFee(g, row).Some? then DecodedFee(g, row).value.amount else 0.0
  {
    DecodedCounts(g, row);
    RatedFacts(0.0, 0.0, g.feeRate);
    if Eligible(g, row) {
      var step := g.steps[Bucket(g, row.blockTime.value)];
      var usd := InputUsd(row, Tokens(g, row), step);
      FeeOfTokens(g, row, step, Tokens(g, row));
      RatedFacts(usd, 0.0, g.feeRate);
    }
  }

  lemma RowsBelowNext(rows: seq<Option<Row>>, row: Option<Row>, n: nat)
    requires row.Some? ==> row.value.index < n
    ensures RowsBelow(rows + [row], n) == RowsBelow(rows, n) + if row.Some? then row.value.amount else 0.0
  {
    assert (rows + [row])[..|rows|] == rows;
  }

  lemma {:induction false} RowsAreRated(g: Grid, rows: seq<DecodedRow>, n: nat)
    requires g.steps != [] && g.feeRate > 0.0 && n <= |rows|
    ensures RowsBelow(DecodedRows(g, rows, n), |g.steps|) == Rated(TradedUsd(g, rows, n), g.feeRate)
  {
    RatedFacts(0.0, 0.0, g.feeRate);
    if n > 0 {
      var row := rows[n - 1];
      RowsAreRated(g, rows, n - 1);
      RowIsRated(g, row);
      DecodedCounts(g, row);
      RowsBelowNext(DecodedRows(g, rows, n - 1), DecodedFee(g, row), |g.steps|);
      RatedFacts(TradedUsd(g, rows, n - 1), RowUsd(g, row), g.feeRate);
    }
  }

  /** The decoded fees of a path sum to the fee rate of what all eligible rows put in. */
  lemma DecodedFeesTotal(g: Grid, rows: seq<DecodedRow>)
    requires g.steps != [] && g.feeRate > 0.0
    ensures SumBelow(DecodedIndex(g, rows).GetOr(map[]), |g.steps|) == Rated(TradedUsd(g, rows, |rows|), g.feeRate)
  {
    var filed := DecodedRows(g, rows, |rows|);
    IndexIsFiled(g, rows);
    FiledConserves(filed, |g.steps|);
    RowsAreRated(g, rows, |rows|);
  }

  lemma IndexIsFiled(g: Grid, rows: seq<DecodedRow>)
    requires g.steps != []
    ensures DecodedIndex(g, rows).GetOr(map[]) == Filed(DecodedRows(g, rows, |rows|))
  {
  }

  lemma FiledConserves(rows: seq<Option<Row>>, n: nat)
    ensures SumBelow(Filed(rows), n) == RowsBelow(rows, n)
  {
    FiledHolds(rows);
    Conserved(Filed(rows), rows, n);
  }

  /** The fees that timing distributes are those a run on candle volume reads. */
  lemma {:induction false} TimingSharesCandleFees(cfg: Config, n: nat)
    requires n <= |cfg.steps| && cfg.swaps.None? && cfg.snapshotFees.None?
    ensures PoolFeesOf(cfg.steps[..n], cfg.feeRate) == FeeFlow.PoolUpTo(cfg, n)
  {
    if n > 0 {
      assert cfg.steps[..n][..n - 1] == cfg.steps[..n - 1];
      TimingSharesCandleFees(cfg, n - 1);
    }
  }
}
