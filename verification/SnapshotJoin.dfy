/**
 The liquidity share of each step from pool snapshots: one sweep over the steps with a cursor into
 the snapshots, which only moves forward.
 */
module SnapshotJoin {
  import opened Options
  import opened Backtest
  import opened Decimals

  /** A snapshot with both vault balances; the other rows of the file are not read. */
  datatype Snapshot = Snapshot(ts: int, amountA: u64, amountB: u64, mintA: Option<string>, mintB: Option<string>)

  datatype Pair = Pair(mintA: string, decimalsA: nat, mintB: string, decimalsB: nat, capital: real)

  function Lower(c: char): char { if 'A' <= c <= 'Z' then (c as int + 32) as char else c }

  predicate SameIgnoringCase(a: string, b: string) {
    |a| == |b| && forall i :: 0 <= i < |a| ==> Lower(a[i]) == Lower(b[i])
  }

  function TokenUsd(pair: Pair, raw: u64, mint: Option<string>, p: Step): real {
    if mint.None? then 0.0
    else if SameIgnoringCase(mint.value, pair.mintA) then raw as real / Pow10(pair.decimalsA) * p.priceUsd
    else if SameIgnoringCase(mint.value, pair.mintB) then raw as real / Pow10(pair.decimalsB) * p.quoteUsd
    else 0.0
  }

  function Tvl(pair: Pair, s: Snapshot, p: Step): real {
    TokenUsd(pair, s.amountA, s.mintA, p) + TokenUsd(pair, s.amountB, s.mintB, p)
  }

  function Clamp(x: real): (c: real)
    ensures 0.0 <= c <= 1.0
    ensures 0.0 <= x <= 1.0 ==> c == x
  {
    Min(Max(x, 0.0), 1.0)
  }

  /** The step after a snapshot is applied: a pool worth nothing leaves it unchanged. */
  function Applied(pair: Pair, s: Snapshot, p: Step): Step {
    if Tvl(pair, s, p) > 0.0 then p.(lpShare := Clamp(pair.capital / Tvl(pair, s, p))) else p
  }

  /** Where the cursor stops for time `t` when it starts at `j`. */
  function Forward(snaps: seq<Snapshot>, j: nat, t: int): (k: nat)
    requires j < |snaps|
    ensures j <= k < |snaps|
    decreases |snaps| - j
  {
    if j + 1 < |snaps| && snaps[j + 1].ts <= t then Forward(snaps, j + 1, t) else j
  }

  /** A fresh search for time `t`. */
  function Search(snaps: seq<Snapshot>, t: int): (k: nat)
    requires snaps != []
    ensures k < |snaps|
  {
    Forward(snaps, 0, t)
  }

  /** The latest time among the first `n + 1` steps. */
  function LatestTime(steps: seq<Step>, n: nat): int
    requires n < |steps|
  {
    if n == 0 then steps[0].ts
    else if steps[n].ts > LatestTime(steps, n - 1) then steps[n].ts else LatestTime(steps, n - 1)
  }

  method MoveForward(snaps: seq<Snapshot>, from: nat, t: int) returns (j: nat)
    requires from < |snaps|
    ensures j == Forward(snaps, from, t)
  {
    j := from;
    while j + 1 < |snaps| && snaps[j + 1].ts <= t
      invariant j < |snaps|
      invariant Forward(snaps, j, t) == Forward(snaps, from, t)
    {
      j := j + 1;
    }
  }

  method Apply(pair: Pair, s: Snapshot, p: Step) returns (r: Step)
    ensures r == Applied(pair, s, p)
  {
    r := p;
    var tvl := TokenUsd(pair, s.amountA, s.mintA, p) + TokenUsd(pair, s.amountB, s.mintB, p);
    if tvl > 0.0 {
      var share := pair.capital / tvl;
      if share < 0.0 {
        share := 0.0;
      }
      if share > 1.0 {
        share := 1.0;
      }
      r := p.(lpShare := share);
    }
  }

  /** Step `i` after the sweep: it gets the snapshot for the latest step time seen so far. */
  function Joined(pair: Pair, snaps: seq<Snapshot>, steps: seq<Step>, i: nat): Step
    requires snaps != [] && i < |steps|
  {
    Applied(pair, snaps[Search(snaps, LatestTime(steps, i))], steps[i])
  }

  function Cursor(snaps: seq<Snapshot>, steps: seq<Step>, i: nat): (j: nat)
    requires snaps != [] && i <= |steps|
    ensures j < |snaps|
  {
    if i == 0 then 0 else Search(snaps, LatestTime(steps, i - 1))
  }

  lemma CursorMoves(snaps: seq<Snapshot>, steps: seq<Step>, i: nat)
    requires snaps != [] && i < |steps|
    ensures Forward(snaps, Cursor(snaps, steps, i), steps[i].ts) == Cursor(snaps, steps, i + 1)
  {
    if i > 0 {
      SearchOnwards(snaps, 0, LatestTime(steps, i - 1), steps[i].ts);
    }
  }

  method ForwardFill(pair: Pair, snaps: seq<Snapshot>, steps: array<Step>)
    modifies steps
    ensures snaps == [] ==> steps[..] == old(steps[..])
    ensures snaps != [] ==> forall i :: 0 <= i < steps.Length ==> steps[i] == Joined(pair, snaps, old(steps[..]), i)
  {
    if snaps == [] {
      return;
    }
    ghost var was := steps[..];
    var j, last := 0, snaps[0];
    var i := 0;
    while i < steps.Length
      invariant 0 <= i <= steps.Length
      invariant j == Cursor(snaps, was, i) && last == snaps[j]
      invariant steps[i..] == was[i..]
      invariant forall k :: 0 <= k < i ==> steps[k] == Joined(pair, snaps, was, k)
    {
      var p := steps[i];
      assert p == was[i] by {
        assert p == steps[i..][0] && was[i] == was[i..][0];
      }
      CursorMoves(snaps, was, i);
      j := MoveForward(snaps, j, p.ts);
      last := snaps[j];
      p := Apply(pair, last, p);
      assert steps[i + 1..] == steps[i..][1..] && was[i + 1..] == was[i..][1..];
      steps[i] := p;
      i := i + 1;
    }
  }

  /** Going on from where an earlier search stopped is a search for the later of both times. */
  lemma {:induction false} SearchOnwards(snaps: seq<Snapshot>, j: nat, earlier: int, t: int)
    requires j < |snaps|
    ensures Forward(snaps, Forward(snaps, j, earlier), t) == Forward(snaps, j, if t > earlier then t else earlier)
    decreases |snaps| - j
  {
    if j + 1 < |snaps| && snaps[j + 1].ts <= earlier {
      SearchOnwards(snaps, j + 1, earlier, t);
    }
  }

  predicate Sorted(snaps: seq<Snapshot>) { forall i, j :: 0 <= i <= j < |snaps| ==> snaps[i].ts <= snaps[j].ts }

  /** Snapshot `k` is the last one at or before `t`, or the first when all are later. */
  predicate LastAtOrBefore(snaps: seq<Snapshot>, t: int, k: nat)
    requires k < |snaps|
  {
    && (forall i :: k < i < |snaps| ==> snaps[i].ts > t)
    && (snaps[k].ts <= t || (k == 0 && forall i :: 0 <= i < |snaps| ==> snaps[i].ts > t))
  }

  lemma {:induction false} ForwardMeaning(snaps: seq<Snapshot>, j: nat, t: int)
    requires j < |snaps| && Sorted(snaps)
    ensures var k := Forward(snaps, j, t);
            && (forall i :: k < i < |snaps| ==> snaps[i].ts > t)
            && (k == j || snaps[k].ts <= t)
    decreases |snaps| - j
  {
    if j + 1 < |snaps| {
      if snaps[j + 1].ts <= t {
        ForwardMeaning(snaps, j + 1, t);
      } else {
        forall i | j < i < |snaps|
          ensures snaps[i].ts > t
        {
          assert snaps[j + 1].ts <= snaps[i].ts;
        }
      }
    }
  }

  lemma OnlyOne(snaps: seq<Snapshot>, t: int, k: nat, l: nat)
    requires k < |snaps| && l < |snaps|
    requires LastAtOrBefore(snaps, t, k) && LastAtOrBefore(snaps, t, l)
    ensures k == l
  {
  }

  /** On sorted snapshots a search finds the one snapshot that applies. */
  lemma SearchFinds(snaps: seq<Snapshot>, t: int, k: nat)
    requires k < |snaps| && Sorted(snaps)
    ensures LastAtOrBefore(snaps, t, k) <==> k == Search(snaps, t)
  {
    ForwardMeaning(snaps, 0, t);
    var found := Search(snaps, t);
    if found == 0 && snaps[0].ts > t {
      forall i | 0 <= i < |snaps|
        ensures snaps[i].ts > t
      {
        assert snaps[0].ts <= snaps[i].ts;
      }
    }
    if LastAtOrBefore(snaps, t, k) {
      OnlyOne(snaps, t, k, found);
    }
  }

  /** On non-decreasing times the one sweep gives each step what a fresh search for its own time gives. */
  lemma SweepIsFreshSearch(snaps: seq<Snapshot>, steps: seq<Step>, n: nat, k: nat)
    requires n < |steps| && k < |snaps| && Sorted(snaps)
    requires forall i :: 0 <= i < n ==> steps[i].ts <= steps[n].ts
    ensures k == Search(snaps, LatestTime(steps, n)) <==> LastAtOrBefore(snaps, steps[n].ts, k)
  {
    var i := LatestIsAStep(steps, n);
    SearchFinds(snaps, steps[n].ts, k);
  }

  lemma {:induction false} LatestIsAStep(steps: seq<Step>, n: nat) returns (i: nat)
    requires n < |steps|
    ensures i <= n && LatestTime(steps, n) == steps[i].ts >= steps[n].ts
  {
    i := n;
    if n > 0 && steps[n].ts <= LatestTime(steps, n - 1) {
      i := LatestIsAStep(steps, n - 1);
    }
  }

  /** A step with a valued pool has its share in [0, 1], and it is capital over TVL when that fits. */
  lemma ShareIsAShare(pair: Pair, s: Snapshot, p: Step)
    requires Tvl(pair, s, p) > 0.0
    ensures var share := Applied(pair, s, p).lpShare;
            && 0.0 <= share <= 1.0
            && (0.0 <= pair.capital <= Tvl(pair, s, p) ==> share * Tvl(pair, s, p) == pair.capital)
            && (pair.capital > Tvl(pair, s, p) ==> share == 1.0)
            && (pair.capital < 0.0 ==> share == 0.0)
  {
    Ratio(pair.capital, Tvl(pair, s, p));
  }

  lemma Ratio(a: real, b: real)
    requires b > 0.0
    ensures a / b * b == a
    ensures a > b <==> a / b > 1.0
    ensures a < 0.0 <==> a / b < 0.0
  {
    SignOfProduct(a / b, b);
    SignOfProduct(a / b - 1.0, b);
    assert (a / b - 1.0) * b == a - b;
  }

  lemma SignOfProduct(x: real, b: real)
    requires b > 0.0
    ensures x * b > 0.0 <==> x > 0.0
    ensures x * b < 0.0 <==> x < 0.0
  {
  }

  // ---------------------------------------------------------------------------------------
  // What a snapshot is worth
  // ---------------------------------------------------------------------------------------

  /** `raw` units are `tokens` whole tokens of the given decimals. */
  predicate Holds(raw: u64, tokens: real, decimals: nat) { raw as real == tokens * Pow10(decimals) }

  predicate Is(mint: Option<string>, name: string) { mint.Some? && SameIgnoringCase(mint.value, name) }

  lemma Whole(raw: real, tokens: real, unit: real)
    requires unit > 0.0 && raw == tokens * unit
    ensures raw / unit == tokens
  {
  }

  /** Whole A tokens are worth A's price, whole B tokens the quote, and other tokens nothing. */
  lemma TokenIsWorth(pair: Pair, raw: u64, mint: Option<string>, p: Step, tokens: real)
    ensures Is(mint, pair.mintA) && Holds(raw, tokens, pair.decimalsA) ==>
              TokenUsd(pair, raw, mint, p) == tokens * p.priceUsd
    ensures Is(mint, pair.mintB) && !Is(mint, pair.mintA) && Holds(raw, tokens, pair.decimalsB) ==>
              TokenUsd(pair, raw, mint, p) == tokens * p.quoteUsd
    ensures !Is(mint, pair.mintA) && !Is(mint, pair.mintB) ==> TokenUsd(pair, raw, mint, p) == 0.0
  {
    if Is(mint, pair.mintA) && Holds(raw, tokens, pair.decimalsA) {
      Whole(raw as real, tokens, Pow10(pair.decimalsA));
    }
    if Is(mint, pair.mintB) && Holds(raw, tokens, pair.decimalsB) {
      Whole(raw as real, tokens, Pow10(pair.decimalsB));
    }
  }

  /** The order of the two vaults does not matter. */
  lemma VaultsCommute(pair: Pair, s: Snapshot, p: Step)
    ensures Tvl(pair, s, p) ==
            Tvl(pair, Snapshot(s.ts, s.amountB, s.amountA, s.mintB, s.mintA), p)
  {
  }

  /** A pool of both tokens is worth both, whatever the letter case of its mints. */
  lemma PoolIsWorth(pair: Pair, s: Snapshot, p: Step, tokensA: real, tokensB: real)
    requires Is(s.mintA, pair.mintA) && Is(s.mintB, pair.mintB) && !Is(s.mintB, pair.mintA)
    requires Holds(s.amountA, tokensA, pair.decimalsA) && Holds(s.amountB, tokensB, pair.decimalsB)
    ensures Tvl(pair, s, p) == tokensA * p.priceUsd + tokensB * p.quoteUsd
  {
    TokenIsWorth(pair, s.amountA, s.mintA, p, tokensA);
    TokenIsWorth(pair, s.amountB, s.mintB, p, tokensB);
  }

  /** Only the case of ASCII letters is ignored. */
  lemma CaseOnly()
    ensures SameIgnoringCase("AMZ09", "amz09") && SameIgnoringCase("amz09", "AMZ09")
    ensures !SameIgnoringCase("[", "{") && !SameIgnoringCase("@", "`") && !SameIgnoringCase("a", "ab")
  {
    assert Lower('[') == '[' && Lower('{') == '{' && Lower('@') == '@' && Lower('`') == '`';
    assert "["[0] == '[' && "{"[0] == '{' && "@"[0] == '@' && "`"[0] == '`';
  }
}
