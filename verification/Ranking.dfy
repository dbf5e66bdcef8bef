/**
 Ranking of a backtest grid: the score of an objective, the tie-breaking comparator, the stable sort
 by it, the filters applied afterwards and the row reported as best.
 */
module Ranking {
  import opened Options
  import opened Backtest
  import Drawdown
  import FeeFlow
  import Valuation

  datatype Objective = Pnl | VsHodl | Fees | Composite | RiskAdj

  datatype GridRow = GridRow(
    width: real, lowerUsd: real, upperUsd: real, name: string, summary: Summary, score: real)

  // ---------------------------------------------------------------------------------------
  // Scores
  // ---------------------------------------------------------------------------------------

  function Score(objective: Objective, s: Summary, capital: real, alpha: real): real {
    match objective
    case Pnl => s.finalPnl
    case VsHodl => s.vsHodl
    case Fees => s.totalFees
    case Composite => s.totalFees - alpha * Max(0.0, -(s.finalIl * capital)) - s.rebalanceCost
    case RiskAdj => if 1.0 + s.maxDrawdown == 0.0 then s.finalPnl else s.finalPnl / (1.0 + s.maxDrawdown)
  }

  lemma Quotient(a: real, b: real)
    requires b != 0.0
    ensures a / b * b == a
  {
  }

  function NetFees(s: Summary): real { s.totalFees - s.rebalanceCost }

  /** The accounting identity: what is left of the IL figure when marks and costs cancel. */
  predicate Balanced(s: Summary, capital: real) {
    if capital > 0.0 then s.finalIl * capital == s.vsHodl - NetFees(s) else s.finalIl == 0.0
  }

  lemma ResultIsBalanced(cfg: Config, m: Clmm)
    ensures Balanced(Result(cfg, m).2, cfg.capital)
  {
    if cfg.steps != [] {
      var last := Run(cfg, m, |cfg.steps|);
      SummaryIsBalanced(cfg, m, last);
    }
  }

  lemma SummaryIsBalanced(cfg: Config, m: Clmm, last: State)
    requires cfg.steps != []
    ensures Balanced(Summarised(cfg, m, last), cfg.capital)
  {
    if cfg.capital > 0.0 {
      var s := Summarised(cfg, m, last);
      Quotient(s.finalValue - s.totalFees + s.rebalanceCost - s.hodlValue, cfg.capital);
    }
  }

  function Blend(s: Summary, alpha: real): real {
    (1.0 - alpha) * NetFees(s) + alpha * Min(NetFees(s), s.vsHodl)
  }

  /**
   The composite score blends the fees after costs with the worse of that and the performance
   against holding; without capital it is the fees after costs.
   */
  lemma CompositeBlends(s: Summary, capital: real, alpha: real)
    requires Balanced(s, capital)
    ensures Score(Composite, s, capital, alpha) == if capital > 0.0 then Blend(s, alpha) else NetFees(s)
  {
    var net := NetFees(s);
    if capital > 0.0 {
      if net > s.vsHodl {
        assert alpha * (net - s.vsHodl) == alpha * net - alpha * s.vsHodl;
      }
    } else {
      assert s.finalIl * capital == 0.0;
    }
  }

  /** With alpha = 1 it is the worse of the two. */
  lemma CompositeIsTheWorse(cfg: Config, m: Clmm)
    requires cfg.capital > 0.0
    ensures var s := Result(cfg, m).2;
            Score(Composite, s, cfg.capital, 1.0) == Min(NetFees(s), s.vsHodl)
  {
    ResultIsBalanced(cfg, m);
    CompositeBlends(Result(cfg, m).2, cfg.capital, 1.0);
  }

  lemma ScoresDiffer(s: Summary, cfg: Config, alpha: real)
    requires Valuation.Accounted(s, cfg)
    ensures Score(Pnl, s, cfg.capital, alpha)
            == Score(VsHodl, s, cfg.capital, alpha) + HodlValue(cfg) - cfg.capital
  {
  }

  lemma SameBenchmark(cfg: Config, other: Config)
    requires cfg.steps == other.steps && cfg.capital == other.capital
    ensures HodlValue(cfg) == HodlValue(other)
  {
  }

  /** Profit exceeds the performance against holding by what holding itself made. */
  lemma PnlAgainstHolding(cfg: Config, m: Clmm, alpha: real)
    ensures Score(Pnl, Result(cfg, m).2, cfg.capital, alpha)
            == Score(VsHodl, Result(cfg, m).2, cfg.capital, alpha) + HodlValue(cfg) - cfg.capital
  {
    Valuation.ReportIsAccounted(cfg, m);
    ScoresDiffer(Result(cfg, m).2, cfg, alpha);
  }

  /** Both objectives therefore order the rows of one path alike. */
  lemma PnlAndVsHodlAgree(cfg: Config, m: Clmm, other: Config, n: Clmm, a: Summary, b: Summary, alpha: real)
    requires cfg.steps == other.steps && cfg.capital == other.capital
    requires a == Result(cfg, m).2 && b == Result(other, n).2
    ensures CompareReal(Score(Pnl, a, cfg.capital, alpha), Score(Pnl, b, cfg.capital, alpha))
            == CompareReal(Score(VsHodl, a, cfg.capital, alpha), Score(VsHodl, b, cfg.capital, alpha))
  {
    PnlAgainstHolding(cfg, m, alpha);
    PnlAgainstHolding(other, n, alpha);
    SameBenchmark(cfg, other);
  }

  /** A position that always holds the benchmark beats holding by its fees, in the score as well. */
  lemma HoldingScoresItsFees(cfg: Config, m: Clmm, alpha: real)
    requires cfg.steps != [] && Valuation.HoldsBenchmark(cfg, m) && cfg.steps[|cfg.steps| - 1].quoteUsd >= 0.0
    ensures var s := Result(cfg, m).2;
            && Score(VsHodl, s, cfg.capital, alpha) == Score(Fees, s, cfg.capital, alpha)
            && Score(Fees, s, cfg.capital, alpha) == FeeFlow.EarnedUpTo(cfg, m, |cfg.steps|)
  {
    Valuation.HoldingIsNeutral(cfg, m);
    FeeFlow.FeesAreEarned(cfg, m, |cfg.steps|);
  }

  lemma Discounted(pnl: real, d: real)
    requires 0.0 <= d <= 1.0
    ensures var q := pnl / (1.0 + d);
            && q * (1.0 + d) == pnl
            && (pnl >= 0.0 ==> pnl / 2.0 <= q <= pnl) && (pnl <= 0.0 ==> pnl <= q <= pnl / 2.0)
  {
    var q := pnl / (1.0 + d);
    Quotient(pnl, 1.0 + d);
    Shrunk(q, pnl, d);
  }

  lemma Shrunk(q: real, pnl: real, d: real)
    requires 0.0 <= d <= 1.0 && q * (1.0 + d) == pnl
    ensures (pnl >= 0.0 ==> pnl / 2.0 <= q <= pnl) && (pnl <= 0.0 ==> pnl <= q <= pnl / 2.0)
  {
    assert q * (1.0 + d) == q + q * d;
    Portion(q, d);
  }

  lemma Portion(q: real, d: real)
    requires 0.0 <= d <= 1.0
    ensures (q >= 0.0 ==> 0.0 <= q * d <= q) && (q <= 0.0 ==> q <= q * d <= 0.0)
  {
  }

  /** The profit moved towards zero by the drawdown, and by half at most. */
  predicate Discounts(score: real, pnl: real, drawdown: real) {
    && score * (1.0 + drawdown) == pnl
    && (pnl >= 0.0 ==> pnl / 2.0 <= score <= pnl) && (pnl <= 0.0 ==> pnl <= score <= pnl / 2.0)
  }

  lemma RiskScore(s: Summary, capital: real, alpha: real)
    requires 0.0 <= s.maxDrawdown <= 1.0
    ensures Discounts(Score(RiskAdj, s, capital, alpha), s.finalPnl, s.maxDrawdown)
  {
    Discounted(s.finalPnl, s.maxDrawdown);
  }

  /** The risk-adjusted score moves the profit towards zero by the drawdown, and by half at most. */
  lemma RiskAdjusted(cfg: Config, m: Clmm, s: Summary, alpha: real)
    requires cfg.steps != [] && Drawdown.NonNegative(Drawdown.Curve(cfg, m, |cfg.steps|)) && cfg.capital > 0.0
    requires s == Result(cfg, m).2
    ensures Discounts(Score(RiskAdj, s, cfg.capital, alpha), s.finalPnl, s.maxDrawdown)
  {
    Drawdown.ReportedDrawdown(cfg, m);
    RiskScore(s, cfg.capital, alpha);
  }

  // ---------------------------------------------------------------------------------------
  // The comparator
  // ---------------------------------------------------------------------------------------

  datatype Ordering = Less | Equal | Greater {
    function Reversed(): Ordering {
      match this
      case Less => Greater
      case Equal => Equal
      case Greater => Less
    }
  }

  function CompareReal(a: real, b: real): Ordering { if a < b then Less else if a > b then Greater else Equal }

  function CompareString(a: string, b: string): Ordering {
    if a == [] && b == [] then Equal
    else if a == [] then Less
    else if b == [] then Greater
    else if a[0] < b[0] then Less
    else if a[0] > b[0] then Greater
    else CompareString(a[1..], b[1..])
  }

  function CountThenName(a: GridRow, b: GridRow): Ordering {
    var t := CompareReal(a.summary.rebalances as real, b.summary.rebalances as real);
    if t != Equal then t else CompareString(a.name, b.name)
  }

  function Compare(objective: Objective, a: GridRow, b: GridRow): Ordering {
    var primary := CompareReal(b.score, a.score);
    if primary != Equal then primary
    else
      match objective
      case Fees =>
        var t := CompareReal(b.summary.vsHodl, a.summary.vsHodl);
        if t != Equal then t
        else
          var u := CompareReal(a.summary.rebalances as real, b.summary.rebalances as real);
          if u != Equal then u
          else
            var v := CompareReal(a.summary.rebalanceCost, b.summary.rebalanceCost);
            if v != Equal then v else CompareString(a.name, b.name)
      case _ =>
        var t := CompareReal(b.summary.totalFees, a.summary.totalFees);
        if t != Equal then t else CountThenName(a, b)
  }

  predicate AtMost(objective: Objective, a: GridRow, b: GridRow) { Compare(objective, a, b) != Greater }

  lemma {:induction false} StringsOrdered(a: string, b: string)
    ensures CompareString(a, b) == CompareString(b, a).Reversed()
    ensures CompareString(a, b) == Equal <==> a == b
  {
    if a != [] && b != [] && a[0] == b[0] {
      StringsOrdered(a[1..], b[1..]);
      assert a == [a[0]] + a[1..] && b == [b[0]] + b[1..];
    }
  }

  lemma {:induction false} StringsTransitive(a: string, b: string, c: string)
    requires CompareString(a, b) != Greater && CompareString(b, c) != Greater
    ensures CompareString(a, c) != Greater
  {
    if a != [] && b != [] && c != [] && a[0] == b[0] == c[0] {
      StringsTransitive(a[1..], b[1..], c[1..]);
    }
  }

  /** The comparator is a total preorder for each objective, as a sort needs. */
  lemma TotalPreorder(objective: Objective, a: GridRow, b: GridRow, c: GridRow)
    ensures Compare(objective, a, b) == Compare(objective, b, a).Reversed()
    ensures AtMost(objective, a, b) && AtMost(objective, b, c) ==> AtMost(objective, a, c)
    ensures AtMost(objective, a, b) ==> a.score >= b.score
  {
    StringsOrdered(a.name, b.name);
    if CompareString(a.name, b.name) != Greater && CompareString(b.name, c.name) != Greater {
      StringsTransitive(a.name, b.name, c.name);
    }
  }

  /** What an objective ranks by before the name, highest first. */
  function Keys(objective: Objective, r: GridRow): seq<real> {
    if objective.Fees?
    then [r.score, r.summary.vsHodl, -(r.summary.rebalances as real), -r.summary.rebalanceCost]
    else [r.score, r.summary.totalFees, -(r.summary.rebalances as real)]
  }

  /** Key `i` is the first that differs, and it is higher in the first row. */
  predicate WinsAt(a: seq<real>, b: seq<real>, i: nat) {
    i < |a| && i < |b| && a[i] > b[i] && forall j :: 0 <= j < i ==> a[j] == b[j]
  }

  /** Alphabetical order: the first difference decides, and a proper prefix comes first. */
  ghost predicate Before(a: string, b: string) { exists i: nat :: BeforeAt(a, b, i) }

  predicate BeforeAt(a: string, b: string, i: nat) {
    i <= |a| && i < |b| && a[..i] == b[..i] && (i == |a| || a[i] < b[i])
  }

  lemma {:induction false} StringMeaning(a: string, b: string)
    ensures CompareString(a, b) == Less <==> Before(a, b)
  {
    if a == [] || b == [] || a[0] != b[0] {
      HeadsDecide(a, b);
    } else {
      StringMeaning(a[1..], b[1..]);
      BeforeTail(a, b);
    }
  }

  lemma HeadsAgree(a: string, b: string, i: nat)
    requires BeforeAt(a, b, i) && i > 0
    ensures a != [] && b != [] && a[0] == b[0]
  {
    assert a[0] == a[..i][0] && b[0] == b[..i][0];
  }

  lemma HeadsDecide(a: string, b: string)
    requires a == [] || b == [] || a[0] != b[0]
    ensures Before(a, b) <==> b != [] && (a == [] || a[0] < b[0])
  {
    if b != [] && (a == [] || a[0] < b[0]) {
      assert BeforeAt(a, b, 0);
    }
    if Before(a, b) {
      var i: nat :| BeforeAt(a, b, i);
      if i > 0 {
        HeadsAgree(a, b, i);
      }
    }
  }

  lemma PrefixTail(a: string, b: string, i: nat)
    requires i < |a| && i < |b| && a[0] == b[0]
    ensures a[..i + 1] == b[..i + 1] <==> a[1..][..i] == b[1..][..i]
  {
    assert a[..i + 1] == [a[0]] + a[1..][..i] && b[..i + 1] == [b[0]] + b[1..][..i];
    assert a[1..][..i] == a[..i + 1][1..] && b[1..][..i] == b[..i + 1][1..];
  }

  lemma BeforeTail(a: string, b: string)
    requires a != [] && b != [] && a[0] == b[0]
    ensures Before(a, b) <==> Before(a[1..], b[1..])
  {
    if Before(a, b) {
      var i: nat :| BeforeAt(a, b, i);
      assert i > 0;
      PrefixTail(a, b, i - 1);
      assert BeforeAt(a[1..], b[1..], i - 1);
    }
    if Before(a[1..], b[1..]) {
      var i: nat :| BeforeAt(a[1..], b[1..], i);
      PrefixTail(a, b, i);
      assert BeforeAt(a, b, i + 1);
    }
  }

  /**
   One row ranks before another exactly when it has the higher first differing key, or all keys
   are equal and its name comes first.
   */
  lemma ComparatorMeaning(objective: Objective, a: GridRow, b: GridRow)
    ensures var ka, kb := Keys(objective, a), Keys(objective, b);
            Compare(objective, a, b) == Less <==>
              (exists i :: WinsAt(ka, kb, i)) || (ka == kb && Before(a.name, b.name))
  {
    var ka, kb := Keys(objective, a), Keys(objective, b);
    StringMeaning(a.name, b.name);
    if ka == kb {
      assert forall i :: !WinsAt(ka, kb, i);
      EqualKeys(objective, a, b);
    } else {
      var i := FirstDifference(ka, kb);
      FirstDecides(ka, kb, i);
      DecidedAt(objective, a, b, i);
    }
  }

  lemma FirstDecides(a: seq<real>, b: seq<real>, i: nat)
    requires i < |a| && i < |b| && a[i] != b[i] && forall j :: 0 <= j < i ==> a[j] == b[j]
    ensures (exists k :: WinsAt(a, b, k)) <==> a[i] > b[i]
  {
    if a[i] > b[i] {
      assert WinsAt(a, b, i);
    }
    forall k: nat | WinsAt(a, b, k)
      ensures k == i
    {
    }
  }

  lemma EqualKeys(objective: Objective, a: GridRow, b: GridRow)
    requires Keys(objective, a) == Keys(objective, b)
    ensures Compare(objective, a, b) == CompareString(a.name, b.name)
  {
    var ka, kb := Keys(objective, a), Keys(objective, b);
    assert ka[0] == kb[0] && ka[1] == kb[1] && ka[2] == kb[2];
    if objective.Fees? {
      assert ka[3] == kb[3];
    }
  }

  lemma DecidedAt(objective: Objective, a: GridRow, b: GridRow, i: nat)
    requires var ka, kb := Keys(objective, a), Keys(objective, b);
             i < |ka| && ka[i] != kb[i] && forall j :: 0 <= j < i ==> ka[j] == kb[j]
    ensures Compare(objective, a, b) == CompareReal(Keys(objective, b)[i], Keys(objective, a)[i])
  {
    var ka, kb := Keys(objective, a), Keys(objective, b);
    assert i > 0 ==> ka[0] == kb[0];
    assert i > 1 ==> ka[1] == kb[1];
    assert i > 2 ==> ka[2] == kb[2];
  }

  lemma FirstDifference(a: seq<real>, b: seq<real>) returns (i: nat)
    requires |a| == |b| && a != b
    ensures i < |a| && a[i] != b[i] && forall j :: 0 <= j < i ==> a[j] == b[j]
  {
    i := 0;
    while i < |a| && a[i] == b[i]
      invariant i <= |a| && forall j :: 0 <= j < i ==> a[j] == b[j]
    {
      i := i + 1;
    }
  }

  predicate Alike(objective: Objective, a: GridRow, b: GridRow) { Compare(objective, a, b) == Equal }

  lemma AlikeIsEquivalence(objective: Objective, a: GridRow, b: GridRow, c: GridRow)
    ensures Alike(objective, a, a)
    ensures Alike(objective, a, b) ==> Alike(objective, b, a)
    ensures Alike(objective, a, b) && Alike(objective, b, c) ==> Alike(objective, a, c)
    ensures AtMost(objective, a, b) && AtMost(objective, b, a) ==> Alike(objective, a, b)
  {
    TotalPreorder(objective, a, b, c);
    TotalPreorder(objective, b, c, a);
    TotalPreorder(objective, c, b, a);
    TotalPreorder(objective, a, c, c);
    TotalPreorder(objective, a, a, a);
  }

  // ---------------------------------------------------------------------------------------
  // The stable sort
  // ---------------------------------------------------------------------------------------

  /** The rows that compare equal to `k`, in order. */
  function Class(objective: Objective, k: GridRow, s: seq<GridRow>): seq<GridRow> {
    if s == [] then []
    else if Alike(objective, s[0], k) then [s[0]] + Class(objective, k, s[1..])
    else Class(objective, k, s[1..])
  }

  predicate Leads(objective: Objective, x: GridRow, s: seq<GridRow>) {
    forall i :: 0 <= i < |s| ==> AtMost(objective, x, s[i])
  }

  predicate Ordered(objective: Objective, s: seq<GridRow>) {
    s == [] || (Leads(objective, s[0], s[1..]) && Ordered(objective, s[1..]))
  }

  /** What any stable sort returns: an ordered sequence with the same rows of each class in the same order. */
  ghost predicate IsStableSort(objective: Objective, s: seq<GridRow>, t: seq<GridRow>) {
    Ordered(objective, t) && forall k: GridRow :: Class(objective, k, t) == Class(objective, k, s)
  }

  function Insert(objective: Objective, x: GridRow, s: seq<GridRow>): seq<GridRow> {
    if s == [] || AtMost(objective, x, s[0]) then [x] + s else [s[0]] + Insert(objective, x, s[1..])
  }

  function StableSort(objective: Objective, s: seq<GridRow>): seq<GridRow> {
    if s == [] then [] else Insert(objective, s[0], StableSort(objective, s[1..]))
  }

  lemma {:induction false} InsertLeads(objective: Objective, y: GridRow, x: GridRow, s: seq<GridRow>)
    requires AtMost(objective, y, x) && Leads(objective, y, s)
    ensures Leads(objective, y, Insert(objective, x, s))
  {
    if s != [] && !AtMost(objective, x, s[0]) {
      assert Leads(objective, y, s[1..]);
      InsertLeads(objective, y, x, s[1..]);
    }
  }

  lemma {:induction false} InsertOrdered(objective: Objective, x: GridRow, s: seq<GridRow>)
    requires Ordered(objective, s)
    ensures Ordered(objective, Insert(objective, x, s))
  {
    if s == [] {
      assert ([x] + s)[1..] == s;
    } else if AtMost(objective, x, s[0]) {
      assert ([x] + s)[1..] == s;
      forall i | 0 <= i < |s|
        ensures AtMost(objective, x, s[i])
      {
        if i > 0 {
          assert s[1..][i - 1] == s[i];
          TotalPreorder(objective, x, s[0], s[i]);
        }
      }
    } else {
      InsertOrdered(objective, x, s[1..]);
      TotalPreorder(objective, x, s[0], x);
      InsertLeads(objective, s[0], x, s[1..]);
      assert ([s[0]] + Insert(objective, x, s[1..]))[1..] == Insert(objective, x, s[1..]);
    }
  }

  lemma {:induction false} InsertKeepsClasses(objective: Objective, k: GridRow, x: GridRow, s: seq<GridRow>)
    ensures Class(objective, k, Insert(objective, x, s)) == Class(objective, k, [x] + s)
  {
    if s != [] && !AtMost(objective, x, s[0]) {
      InsertKeepsClasses(objective, k, x, s[1..]);
      AlikeIsEquivalence(objective, x, k, s[0]);
      AlikeIsEquivalence(objective, s[0], k, x);
      var rest := Insert(objective, x, s[1..]);
      assert ([s[0]] + rest)[1..] == rest;
      assert ([x] + s)[1..] == s && ([x] + s[1..])[1..] == s[1..];
    }
  }

  lemma {:induction false} SortIsStable(objective: Objective, s: seq<GridRow>)
    ensures IsStableSort(objective, s, StableSort(objective, s))
  {
    if s != [] {
      var rest := StableSort(objective, s[1..]);
      SortIsStable(objective, s[1..]);
      InsertOrdered(objective, s[0], rest);
      forall k: GridRow
        ensures Class(objective, k, StableSort(objective, s)) == Class(objective, k, s)
      {
        InsertKeepsClasses(objective, k, s[0], rest);
        assert ([s[0]] + rest)[1..] == rest;
      }
    }
  }

  lemma {:induction false} ClassMember(objective: Objective, k: GridRow, s: seq<GridRow>) returns (i: nat)
    requires Class(objective, k, s) != []
    ensures i < |s| && Alike(objective, s[i], k) && Class(objective, k, s)[0] == s[i]
  {
    if Alike(objective, s[0], k) {
      i := 0;
    } else {
      var j := ClassMember(objective, k, s[1..]);
      i := j + 1;
    }
  }

  lemma HeadLeads(objective: Objective, s: seq<GridRow>, i: nat)
    requires Ordered(objective, s) && i < |s|
    ensures AtMost(objective, s[0], s[i])
  {
    AlikeIsEquivalence(objective, s[0], s[0], s[0]);
    if i > 0 {
      assert s[1..][i - 1] == s[i];
    }
  }

  /** The head of an ordered sequence is at most the head of another with the same classes. */
  lemma HeadsCompare(objective: Objective, t: seq<GridRow>, u: seq<GridRow>)
    requires u != [] && Ordered(objective, t) && Class(objective, u[0], t) == Class(objective, u[0], u)
    ensures t != [] && AtMost(objective, t[0], u[0])
  {
    AlikeIsEquivalence(objective, u[0], u[0], u[0]);
    var i := ClassMember(objective, u[0], t);
    assert t[i] == u[0];
    HeadLeads(objective, t, i);
  }

  /** There is only one stable sort. */
  lemma {:induction false} StableSortIsUnique(objective: Objective, t: seq<GridRow>, u: seq<GridRow>)
    requires Ordered(objective, t) && Ordered(objective, u)
    requires forall k: GridRow :: Class(objective, k, t) == Class(objective, k, u)
    ensures t == u
  {
    if t != [] {
      HeadsCompare(objective, u, t);
    }
    if u != [] {
      HeadsCompare(objective, t, u);
      AlikeIsEquivalence(objective, t[0], u[0], t[0]);
      assert t[0] == Class(objective, u[0], t)[0] == Class(objective, u[0], u)[0] == u[0] by {
        AlikeIsEquivalence(objective, u[0], u[0], u[0]);
      }
      forall k: GridRow
        ensures Class(objective, k, t[1..]) == Class(objective, k, u[1..])
      {
        ClassOfTail(objective, k, t, u);
      }
      StableSortIsUnique(objective, t[1..], u[1..]);
      assert t == [t[0]] + t[1..] && u == [u[0]] + u[1..];
    }
  }

  lemma ClassOfTail(objective: Objective, k: GridRow, t: seq<GridRow>, u: seq<GridRow>)
    requires t != [] && u != [] && t[0] == u[0] && Class(objective, k, t) == Class(objective, k, u)
    ensures Class(objective, k, t[1..]) == Class(objective, k, u[1..])
  {
    if Alike(objective, t[0], k) {
      var a, b := Class(objective, k, t[1..]), Class(objective, k, u[1..]);
      assert a == ([t[0]] + a)[1..] == ([u[0]] + b)[1..] == b;
    }
  }

  // ---------------------------------------------------------------------------------------
  // Filters and the winner
  // ---------------------------------------------------------------------------------------

  datatype Filters = Filters(minTimeInRange: Option<real>, maxDrawdown: Option<real>) {
    predicate Pass(r: GridRow) {
      && (minTimeInRange.Some? ==> r.summary.timeInRange >= minTimeInRange.value)
      && (maxDrawdown.Some? ==> r.summary.maxDrawdown <= maxDrawdown.value)
    }
  }

  lemma Signs(a: real, b: real)
    requires b > 0.0
    ensures (a >= 0.0 <==> a * b >= 0.0) && (a <= 0.0 <==> a * b <= 0.0)
  {
  }

  lemma AgainstProduct(a: real, n: real, x: real)
    requires n > 0.0
    ensures a / n >= x <==> a >= x * n
    ensures a / n <= x <==> a <= x * n
  {
    var q := a / n;
    Quotient(a, n);
    Signs(q - x, n);
    assert (q - x) * n == q * n - x * n;
  }

  /** No later point of the curve is lower than an earlier one by more than the fraction `x` of it. */
  predicate FellAtMost(e: seq<real>, x: real) {
    forall i, j :: 0 <= i <= j < |e| && e[i] > 0.0 ==> e[i] - e[j] <= x * e[i]
  }

  lemma LossAtMost(high: real, low: real, x: real)
    requires high > 0.0
    ensures Drawdown.Loss(high, low) <= x <==> high - low <= x * high
  {
    AgainstProduct(high - low, high, x);
  }

  lemma FellWithin(e: seq<real>, d: real, x: real, i: nat, j: nat)
    requires i <= j < |e| && e[i] > 0.0 && d <= x
    requires forall k, l :: 0 <= k <= l < |e| && e[k] > 0.0 ==> Drawdown.Loss(e[k], e[l]) <= d
    ensures e[i] - e[j] <= x * e[i]
  {
    assert Drawdown.Loss(e[i], e[j]) <= x;
    LossAtMost(e[i], e[j], x);
  }

  lemma LargestLoss(e: seq<real>, d: real, x: real, i: nat, j: nat)
    requires i <= j < |e| && e[i] > 0.0 && Drawdown.Loss(e[i], e[j]) == d && FellAtMost(e, x)
    ensures d <= x
  {
    LossAtMost(e[i], e[j], x);
  }

  lemma MaxDrawdownAtMost(e: seq<real>, d: real, x: real)
    requires Drawdown.IsMaxDrawdown(e, d)
    ensures d <= x <==> FellAtMost(e, x)
  {
    if d <= x {
      forall i, j | 0 <= i <= j < |e| && e[i] > 0.0
        ensures e[i] - e[j] <= x * e[i]
      {
        FellWithin(e, d, x, i, j);
      }
    }
    if FellAtMost(e, x) {
      var i, j :| 0 <= i <= j < |e| && e[i] > 0.0 && Drawdown.Loss(e[i], e[j]) == d;
      LargestLoss(e, d, x, i, j);
    }
  }

  /** `k` of `n` steps are in range and the equity curve is `e`: what the two filters ask of them. */
  predicate Demanded(f: Filters, k: nat, n: nat, e: seq<real>) {
    && (f.minTimeInRange.Some? ==> k as real >= f.minTimeInRange.value * n as real)
    && (f.maxDrawdown.Some? ==> FellAtMost(e, f.maxDrawdown.value))
  }

  lemma PassMeans(f: Filters, r: GridRow, k: nat, n: nat, e: seq<real>)
    requires n > 0 && r.summary.timeInRange == k as real / n as real
    requires Drawdown.IsMaxDrawdown(e, r.summary.maxDrawdown)
    ensures f.Pass(r) <==> Demanded(f, k, n, e)
  {
    if f.minTimeInRange.Some? {
      AgainstProduct(k as real, n as real, f.minTimeInRange.value);
    }
    if f.maxDrawdown.Some? {
      MaxDrawdownAtMost(e, r.summary.maxDrawdown, f.maxDrawdown.value);
    }
  }

  /**
   A reported row passes exactly when the steps in range reach the demanded fraction of the path and
   the equity never fell by more than the allowed fraction.
   */
  lemma FiltersMean(f: Filters, cfg: Config, m: Clmm, r: GridRow)
    requires cfg.steps != [] && Drawdown.NonNegative(Drawdown.Curve(cfg, m, |cfg.steps|)) && cfg.capital > 0.0
    requires r.summary == Result(cfg, m).2
    ensures var n := |cfg.steps|;
            f.Pass(r) <==> Demanded(f, FeeFlow.InRangeCount(cfg, m, n), n, Drawdown.Curve(cfg, m, n))
  {
    var n := |cfg.steps|;
    Drawdown.ReportedDrawdown(cfg, m);
    FeeFlow.TimeInRange(cfg, m);
    PassMeans(f, r, FeeFlow.InRangeCount(cfg, m, n), n, Drawdown.Curve(cfg, m, n));
  }

  function Retained(f: Filters, s: seq<GridRow>): seq<GridRow> {
    if s == [] then []
    else if f.Pass(s[0]) then [s[0]] + Retained(f, s[1..])
    else Retained(f, s[1..])
  }

  lemma {:induction false} RetainedMembers(f: Filters, s: seq<GridRow>, r: GridRow)
    ensures r in Retained(f, s) <==> r in s && f.Pass(r)
  {
    if s != [] {
      RetainedMembers(f, s[1..], r);
      assert s == [s[0]] + s[1..];
    }
  }

  lemma {:induction false} RetainedOrdered(objective: Objective, f: Filters, s: seq<GridRow>)
    requires Ordered(objective, s)
    ensures Ordered(objective, Retained(f, s))
  {
    if s != [] {
      RetainedOrdered(objective, f, s[1..]);
      var rest := Retained(f, s[1..]);
      assert ([s[0]] + rest)[1..] == rest;
      forall i | 0 <= i < |rest|
        ensures AtMost(objective, s[0], rest[i])
      {
        RetainedMembers(f, s[1..], rest[i]);
      }
    }
  }

  lemma {:induction false} ClassOfRetained(objective: Objective, f: Filters, k: GridRow, s: seq<GridRow>)
    ensures Class(objective, k, Retained(f, s)) == Retained(f, Class(objective, k, s))
  {
    if s != [] {
      ClassOfRetained(objective, f, k, s[1..]);
      var rest, alike := Retained(f, s[1..]), Class(objective, k, s[1..]);
      assert ([s[0]] + rest)[1..] == rest && ([s[0]] + alike)[1..] == alike;
    }
  }

  /** Filtering after any stable sort is the stable sort of the filtered grid. */
  lemma FilterCommutesWithSort(objective: Objective, f: Filters, s: seq<GridRow>, t: seq<GridRow>)
    requires IsStableSort(objective, s, t)
    ensures t == StableSort(objective, s)
    ensures Retained(f, t) == StableSort(objective, Retained(f, s))
  {
    SortIsStable(objective, s);
    StableSortIsUnique(objective, t, StableSort(objective, s));
    RetainedOrdered(objective, f, t);
    SortIsStable(objective, Retained(f, s));
    forall k: GridRow
      ensures Class(objective, k, Retained(f, t)) == Class(objective, k, StableSort(objective, Retained(f, s)))
    {
      ClassOfRetained(objective, f, k, s);
      ClassOfRetained(objective, f, k, t);
    }
    StableSortIsUnique(objective, Retained(f, t), StableSort(objective, Retained(f, s)));
  }

  function Best(objective: Objective, f: Filters, s: seq<GridRow>): Option<GridRow> {
    var kept := Retained(f, StableSort(objective, s));
    if kept == [] then None else Some(kept[0])
  }

  /**
   The reported row passes the filters and no passing row ranks above it; among the passing rows
   that tie with it, it came first. There is none exactly when no row passes.
   */
  lemma BestIsBest(objective: Objective, f: Filters, s: seq<GridRow>)
    ensures Best(objective, f, s).None? <==> forall r :: r in s ==> !f.Pass(r)
    ensures Best(objective, f, s).Some? ==>
              var best := Best(objective, f, s).value;
              && best in s && f.Pass(best)
              && (forall r :: r in s && f.Pass(r) ==> AtMost(objective, best, r) && best.score >= r.score)
              && Class(objective, best, Retained(f, s)) != []
              && Class(objective, best, Retained(f, s))[0] == best
  {
    SortIsStable(objective, s);
    FilterCommutesWithSort(objective, f, s, StableSort(objective, s));
    var all := Retained(f, s);
    var kept := StableSort(objective, all);
    SortIsStable(objective, all);
    if kept == [] {
      forall r | r in s
        ensures !f.Pass(r)
      {
        RetainedMembers(f, s, r);
        if r in all {
          var _ := Present(objective, all, kept, r);
        }
      }
    } else {
      AlikeIsEquivalence(objective, kept[0], kept[0], kept[0]);
      var i := ClassMember(objective, kept[0], all);
      RetainedMembers(f, s, kept[0]);
      forall r | r in s && f.Pass(r)
        ensures AtMost(objective, kept[0], r) && kept[0].score >= r.score
      {
        RetainedMembers(f, s, r);
        var j := Present(objective, all, kept, r);
        HeadLeads(objective, kept, j);
        TotalPreorder(objective, kept[0], r, r);
      }
    }
  }

  /** A stable sort keeps every row. */
  lemma Present(objective: Objective, s: seq<GridRow>, t: seq<GridRow>, r: GridRow) returns (j: nat)
    requires r in s && Class(objective, r, s) == Class(objective, r, t)
    ensures j < |t| && t[j] == r
  {
    InClass(objective, s, r);
    j := FromClass(objective, r, t, r);
  }

  lemma {:induction false} InClass(objective: Objective, s: seq<GridRow>, r: GridRow)
    requires r in s
    ensures r in Class(objective, r, s)
  {
    AlikeIsEquivalence(objective, r, r, r);
    if s[0] != r {
      assert s == [s[0]] + s[1..];
      InClass(objective, s[1..], r);
    }
  }

  lemma {:induction false} FromClass(objective: Objective, k: GridRow, s: seq<GridRow>, r: GridRow) returns (j: nat)
    requires r in Class(objective, k, s)
    ensures j < |s| && s[j] == r
  {
    if s[0] == r {
      j := 0;
    } else {
      var i := FromClass(objective, k, s[1..], r);
      j := i + 1;
    }
  }
}
