/** The words of a strategy label: what a threshold says beyond its percentage, and labels as they read. */
module LabelText {
  import opened Options
  import opened Backtest
  import opened Decimals
  import opened Texts
  import opened Labels
  import opened LabelRoundTrip

  // ---------------------------------------------------------------------------------------
  // The interval of a threshold
  // ---------------------------------------------------------------------------------------

  function Hours(h: nat): string { "min" + ShowNat(h) + "h" }

  function Exit(immediate: bool): string { "oor" + if immediate then "immediate" else "delayed" }

  lemma HoursTell(h: u64, g: u64)
    requires Hours(h) == Hours(g)
    ensures h == g
  {
    var a, b := ShowNat(h), ShowNat(g);
    assert |Hours(h)| == |a| + 4 && |Hours(g)| == |b| + 4;
    assert Hours(h)[3..|a| + 3] == a && Hours(g)[3..|b| + 3] == b;
  }

  lemma ExitTells(a: bool, b: bool)
    requires Exit(a) == Exit(b)
    ensures a == b
  {
    assert |Exit(a)| == if a then 12 else 10;
    assert |Exit(b)| == if b then 12 else 10;
  }

  lemma PlainAround(head: string, s: string, tail: string)
    requires Plain(head) && Plain(s) && Plain(tail)
    ensures Plain(head + s + tail)
  {
  }

  lemma HoursArePlain(h: u64)
    ensures Plain(Hours(h))
  {
    NatReads(h);
    PlainAround("min", ShowNat(h), "h");
  }

  lemma ExitIsPlain(immediate: bool)
    ensures Plain(Exit(immediate))
  {
  }

  /** What follows the first word of a threshold label. */
  function Rest(pct: real, h: u64, immediate: bool): string {
    if h > 0 || !immediate then Percent(pct) + "_" + (Hours(h) + "_" + Exit(immediate)) else Percent(pct)
  }

  lemma IntervalText(h: u64, immediate: bool)
    ensures var exit := if immediate then "immediate" else "delayed";
            "min" + ShowNat(h) + "h_oor" + exit == Hours(h) + "_" + Exit(immediate)
  {
  }

  lemma ThresholdText(pct: real, h: u64, immediate: bool, d: nat)
    ensures Label(Threshold(pct, h, immediate), d) == "threshold_" + Rest(pct, h, immediate)
  {
    IntervalText(h, immediate);
  }

  lemma RestParts(pct: real, h: u64, immediate: bool)
    ensures Split(Rest(pct, h, immediate)) ==
            if h > 0 || !immediate then [Percent(pct), Hours(h), Exit(immediate)] else [Percent(pct)]
  {
    PercentReads(pct);
    HoursArePlain(h);
    ExitIsPlain(immediate);
    if h > 0 || !immediate {
      Three(Percent(pct), Hours(h), Exit(immediate));
    } else {
      SplitPlain(Percent(pct));
    }
  }

  lemma SameParts(p: real, h: u64, a: bool, q: real, g: u64, b: bool)
    requires Rest(p, h, a) == Rest(q, g, b)
    ensures Percent(p) == Percent(q) && h == g && a == b
  {
    RestParts(p, h, a);
    RestParts(q, g, b);
    var ps, pt := Split(Rest(p, h, a)), Split(Rest(q, g, b));
    assert ps[0] == pt[0];
    if |ps| == 3 {
      assert ps[1] == pt[1] && ps[2] == pt[2];
      HoursTell(h, g);
      ExitTells(a, b);
    }
  }

  lemma SameRest(s: string, t: string)
    requires "threshold_" + s == "threshold_" + t
    ensures s == t
  {
    AfterPrefix("threshold_", s);
    AfterPrefix("threshold_", t);
  }

  lemma SamePercent(p: real, q: real)
    requires Percent(p) == Percent(q)
    ensures Shown(p, 0) == Shown(q, 0)
  {
    PercentReads(p);
    PercentReads(q);
  }

  /** Equal threshold labels mean equal intervals and exits, although the parser drops both. */
  lemma IntervalIsShown(p: real, h: u64, a: bool, q: real, g: u64, b: bool, d: nat, e: nat)
    requires Label(Threshold(p, h, a), d) == Label(Threshold(q, g, b), e)
    ensures h == g && a == b && Shown(p, 0) == Shown(q, 0)
  {
    ThresholdText(p, h, a, d);
    ThresholdText(q, g, b, e);
    SameRest(Rest(p, h, a), Rest(q, g, b));
    SameParts(p, h, a, q, g, b);
    SamePercent(p, q);
  }

  // ---------------------------------------------------------------------------------------
  // Labels as they read
  // ---------------------------------------------------------------------------------------

  lemma OneDigit(n: nat)
    requires n < 10
    ensures ShowNat(n) == [Digit(n)]
  {
  }

  lemma TwoDigits(n: nat)
    requires 10 <= n < 100
    ensures ShowNat(n) == [Digit(n / 10), Digit(n % 10)]
  {
    assert Padded(n / 10, 0) == [Digit(n / 10)];
  }

  lemma WholePercent(x: real, n: nat)
    requires x * 100.0 == n as real
    ensures Percent(x) == ShowNat(n) + "%"
  {
    assert Times(x * 100.0, 0) == n as real;
    assert FixedNumeral(x * 100.0, 0) == Numeral(false, n, 0);
  }

  lemma Percents()
    ensures Percent(0.05) == "5%" && Percent(0.12) == "12%"
  {
    WholePercent(0.05, 5);
    WholePercent(0.12, 12);
    OneDigit(5);
    TwoDigits(12);
  }

  /** A threshold of 5 percent that waits three hours before it follows the price out of its range. */
  lemma DelayedThresholdReads(d: nat)
    ensures Label(Threshold(0.05, 3, false), d) == "threshold_" + "5%_min3h_oordelayed"
  {
    ThresholdText(0.05, 3, false, d);
    DelayedRest();
  }

  lemma DelayedRest()
    ensures Rest(0.05, 3, false) == "5%_min3h_oordelayed"
  {
    Percents();
    OneDigit(3);
  }

  lemma ThresholdsRead(d: nat)
    ensures Label(Threshold(0.05, 3, true), d) == "threshold_5%_min3h_oorimmediate"
    ensures Label(Threshold(0.05, 0, true), d) == "threshold_5%"
  {
    Percents();
    OneDigit(3);
  }

  lemma LastCandlesRead(d: nat)
    ensures Label(LastCandle(4, 24), d) == "last_candle_c4_r24"
    ensures Label(LastCandleTime(60, 90), d) == "last_candle_t60_r90"
  {
    OneDigit(4);
    TwoDigits(24);
    TwoDigits(60);
    TwoDigits(90);
  }

  lemma IlLimitReads(d: nat)
    ensures Label(IlLimit(0.05, None, 0), d) == "il_limit_5%_grace_0"
  {
    Percents();
    OneDigit(0);
  }

  lemma IlLimitWithCloseReads(d: nat)
    ensures Label(IlLimit(0.05, Some(0.12), 3), d) == "il_limit_" + ("5%" + "_" + "close_12%_grace_3")
  {
    Percents();
    CloseText();
  }

  lemma CloseText()
    ensures "close" + "_" + (Percent(0.12) + "_" + ("grace" + "_" + ShowNat(3))) == "close_12%_grace_3"
  {
    Percents();
    OneDigit(3);
  }

  lemma PeriodicsRead(d: nat)
    ensures Label(Periodic(48), d) == "periodic_48h" && Label(PeriodicSteps(3), d) == "periodic_steps_3"
  {
    TwoDigits(48);
    OneDigit(3);
  }

  lemma BollingerReadsTwo()
    ensures Label(Bollinger(20, 2.0, 12), 0) == "bollinger_w20_k2_r12"
  {
    TwoDigits(20);
    TwoDigits(12);
    OneDigit(2);
    assert Times(2.0, 0) == 2.0;
    assert FixedNumeral(2.0, 0) == Numeral(false, 2, 0);
  }

  /** The offset is shown as a percentage with four decimals. */
  lemma RetouchReadsTenth(d: nat)
    ensures Label(RetouchShift(0.001), d) == "retouch_shift_off0.1000pct"
  {
    assert Pow10(1) == 10.0 && Pow10(2) == 100.0 && Pow10(3) == 1000.0 && Pow10(4) == 10000.0;
    assert Times(0.001 * 100.0, 4) == 1000.0;
    assert FixedNumeral(0.001 * 100.0, 4) == Numeral(false, 1000, 4);
    FourDecimals();
  }

  lemma FourDecimals()
    ensures Show(Numeral(false, 1000, 4)) == "0.1000"
  {
    assert Padded(1, 2) == "01";
    assert Padded(10, 3) == "010";
    assert Padded(100, 4) == "0100";
    assert Padded(1000, 5) == "01000";
  }

  // ---------------------------------------------------------------------------------------
  // What the parser tolerates
  // ---------------------------------------------------------------------------------------

  predicate AllWhite(s: string) { forall i :: 0 <= i < |s| ==> White(s[i]) }

  lemma {:induction false} StartTrimmed(w: string, s: string)
    requires AllWhite(w)
    ensures TrimStart(w + s) == TrimStart(s)
  {
    if w == [] {
      assert w + s == s;
    } else {
      assert (w + s)[0] == w[0] && (w + s)[1..] == w[1..] + s;
      StartTrimmed(w[1..], s);
    }
  }

  lemma {:induction false} EndTrimmed(s: string, w: string)
    requires AllWhite(w)
    ensures TrimEnd(s + w) == TrimEnd(s)
  {
    if w == [] {
      assert s + w == s;
    } else {
      var front := w[..|w| - 1];
      assert (s + w)[|s + w| - 1] == w[|w| - 1] && (s + w)[..|s + w| - 1] == s + front;
      EndTrimmed(s, front);
    }
  }

  /** Trimming the start leaves nothing of white text, and otherwise does not touch what follows. */
  lemma {:induction false} StartThenMore(s: string, w: string)
    requires AllWhite(w)
    ensures TrimEnd(TrimStart(s + w)) == TrimEnd(TrimStart(s))
  {
    if s == [] {
      assert s + w == w && w + [] == w;
      StartTrimmed(w, []);
    } else if White(s[0]) {
      assert (s + w)[0] == s[0] && (s + w)[1..] == s[1..] + w;
      StartThenMore(s[1..], w);
    } else {
      assert (s + w)[0] == s[0];
      EndTrimmed(s, w);
    }
  }

  /** White space around a label does not matter. */
  lemma SpaceAround(before: string, name: string, behind: string)
    requires AllWhite(before) && AllWhite(behind)
    ensures Parse(before + name + behind) == Parse(name)
  {
    assert before + name + behind == before + (name + behind);
    StartTrimmed(before, name + behind);
    StartThenMore(name, behind);
  }

  /** A plus sign in front of digits does not matter either. */
  lemma PlusSign(n: nat, max: nat)
    ensures ParseNat("+" + ShowNat(n), max) == if n <= max then Some(n) else None
  {
    var s := "+" + ShowNat(n);
    assert s[0] == '+' && s[1..] == ShowNat(n);
  }

  lemma PlusNumeral(s: string)
    requires s != [] && s[0] != '+' && s[0] != '-'
    ensures ParseNumeral("+" + s) == ParseNumeral(s)
  {
    assert ("+" + s)[0] == '+' && ("+" + s)[1..] == s;
  }

  lemma GraceJoined(acc: IlParts, g: string)
    requires AllDigits(g) && g != []
    ensures IlPart(acc, "grace" + g) == acc.(grace := ParseSmall(g)) && Plain("grace" + g)
  {
    var part := "grace" + g;
    assert part[|part| - 1] == g[|g| - 1] && IsDigit(g[|g| - 1]);
    LastDiffers(part, "%");
    AfterPrefix("grace", g);
    assert part[0] == 'g' && "close"[0] == 'c';
  }

  lemma IlOfTwo(maxIl: real, part: string)
    requires Plain(part)
    ensures IlFold(IlParts(None, None, None), Split(Percent(maxIl) + "_" + part)) ==
            IlPart(IlParts(Some(Shown(maxIl, 0)), None, None), part)
  {
    var init, p := IlParts(None, None, None), Percent(maxIl);
    PercentReads(maxIl);
    Two(p, part);
    FirstPercent(init, maxIl);
    IlNext(init, p, [part]);
    IlNext(init.(maxIl := Some(Shown(maxIl, 0))), part, []);
    assert [p, part] == [p] + [part] && [part] == [part] + [];
  }

  /** The grace steps of an IL limit may come after the word, joined to it, or without it. */
  lemma GraceSpellings(maxIl: real, grace: u64)
    ensures var limit, g := IlLimit(Shown(maxIl, 0), None, grace), ShowNat(grace);
            && ParseIl(Percent(maxIl) + "_" + ("grace" + "_" + g)) == Some(limit)
            && ParseIl(Percent(maxIl) + "_" + ("grace" + g)) == Some(limit)
            && ParseIl(Percent(maxIl) + "_" + g) == Some(limit)
  {
    var acc, g := IlParts(Some(Shown(maxIl, 0)), None, None), ShowNat(grace);
    NatReads(grace);
    IlWithoutClose(maxIl, grace);
    GraceJoined(acc, g);
    IlOfTwo(maxIl, "grace" + g);
    DigitsPart(acc, g);
    IlOfTwo(maxIl, g);
  }
}
