/** What comes back when a printed strategy label is parsed. */
module LabelRoundTrip {
  import opened Options
  import opened Backtest
  import opened Decimals
  import opened Texts
  import opened Labels

  /** A fraction as its percentage shows it with `d` decimals. */
  function Shown(x: real, d: nat): real { HundredthOf(FixedNumeral(x * 100.0, d)) }

  /** What the parser makes of the label of a strategy. */
  function Canonical(s: Strategy): Strategy {
    match s
    case Threshold(pct, _, _) => Threshold(Shown(pct, 0), 0, true)
    case IlLimit(maxIl, closeIl, grace) =>
      IlLimit(Shown(maxIl, 0), if closeIl.Some? then Some(Shown(closeIl.value, 0)) else None, grace)
    case RetouchShift(offset) => RetouchShift(if Abs(offset) < EPSILON then 0.0 else Shown(offset, 4))
    case _ => s
  }

  // ---------------------------------------------------------------------------------------
  // Printed numbers
  // ---------------------------------------------------------------------------------------

  lemma NumericIsTrimmed(s: string)
    requires Numeric(s)
    ensures Trim(s) == s && Plain(s)
  {
    NothingToTrim(s);
  }

  lemma NumeralReads(n: Numeral)
    ensures Numeric(Show(n)) && Hundredth(Show(n)) == Some(HundredthOf(n))
  {
    ShownIsNumeric(n);
    NumeralRoundTrip(n);
  }

  lemma FixedReads(x: real, d: nat)
    ensures var f := Fixed(x * 100.0, d); Numeric(f) && Hundredth(f) == Some(Shown(x, d))
  {
    NumeralReads(FixedNumeral(x * 100.0, d));
  }

  lemma PercentReads(x: real)
    ensures var p, f := Percent(x), Fixed(x * 100.0, 0);
            && Plain(p) && EndsWith(p, "%") && p[..|p| - 1] == f && !White(p[0])
            && Trim(TrimEndChar(p, '%')) == f && Hundredth(f) == Some(Shown(x, 0))
  {
    var f := Fixed(x * 100.0, 0);
    FixedReads(x, 0);
    NumericIsTrimmed(f);
    CharTrimmedOnce(f, '%');
    assert (f + "%")[..|f|] == f;
  }

  lemma NatReads(n: Small)
    ensures ParseSmall(ShowNat(n)) == Some(n) && Trim(ShowNat(n)) == ShowNat(n) && Plain(ShowNat(n))
    ensures IsDigit(ShowNat(n)[0]) && IsDigit(ShowNat(n)[|ShowNat(n)| - 1])
  {
    NatRoundTrip(n, U64);
    NatIsNumeric(n);
    NumericIsTrimmed(ShowNat(n));
  }

  // ---------------------------------------------------------------------------------------
  // Label bodies
  // ---------------------------------------------------------------------------------------

  lemma ThresholdReads(pct: real, tail: string)
    requires tail == "" || tail[0] == '_'
    ensures ParseThreshold(Percent(pct) + tail) == Some(Threshold(Shown(pct, 0), 0, true))
  {
    PercentReads(pct);
    var p := Percent(pct);
    if tail == "" {
      assert p + tail == p;
      SplitPlain(p);
    } else {
      assert p + tail == p + "_" + tail[1..];
      SplitNext(p, tail[1..]);
    }
  }

  lemma PeriodicReads(h: Small)
    ensures ParsePeriodic(ShowNat(h) + "h") == Some(Periodic(h))
  {
    NatReads(h);
    CharTrimmedOnce(ShowNat(h), 'h');
  }

  lemma RetouchReads(offset: real)
    ensures ParseRetouch(Fixed(offset * 100.0, 4) + "pct") == Some(RetouchShift(Shown(offset, 4)))
  {
    var f := Fixed(offset * 100.0, 4);
    FixedReads(offset, 4);
    NumericIsTrimmed(f);
    LastDiffers(f, "pct");
    TextTrimmedOnce(f, "pct");
  }

  lemma Two(a: string, b: string)
    requires Plain(a) && Plain(b)
    ensures Split(a + "_" + b) == [a, b]
  {
    SplitNext(a, b);
    SplitPlain(b);
  }

  lemma Three(a: string, b: string, c: string)
    requires Plain(a) && Plain(b) && Plain(c)
    ensures Split(a + "_" + (b + "_" + c)) == [a, b, c]
  {
    SplitNext(a, b + "_" + c);
    SplitNext(b, c);
    SplitPlain(c);
  }

  lemma IlNext(acc: IlParts, a: string, rest: seq<string>)
    ensures IlFold(acc, [a] + rest) == IlFold(IlPart(acc, a), rest)
  {
    assert ([a] + rest)[1..] == rest;
  }

  lemma FirstPercent(acc: IlParts, x: real)
    requires acc.maxIl.None?
    ensures IlPart(acc, Percent(x)) == acc.(maxIl := Some(Shown(x, 0)))
  {
    PercentReads(x);
  }

  lemma SecondPercent(acc: IlParts, x: real)
    requires acc.maxIl.Some? && acc.closeIl.None?
    ensures IlPart(acc, Percent(x)) == acc.(closeIl := Some(Shown(x, 0)))
  {
    PercentReads(x);
  }

  lemma Words(acc: IlParts)
    ensures IlPart(acc, "close") == acc && IlPart(acc, "grace") == acc
    ensures Plain("close") && Plain("grace")
  {
    LastDiffers("close", "%");
    LastDiffers("grace", "%");
    assert After("grace", "grace") == [];
    PrefixDiffers("close", "grace", 0);
  }

  lemma DigitsPart(acc: IlParts, g: string)
    requires AllDigits(g) && g != [] && acc.grace.None?
    ensures IlPart(acc, g) == acc.(grace := ParseSmall(g))
  {
    assert IsDigit(g[0]) && IsDigit(g[|g| - 1]);
    LastDiffers(g, "%");
    PrefixDiffers(g, "grace", 0);
  }

  /** The last two parts set the grace steps. */
  lemma GraceParts(acc: IlParts, grace: Small)
    requires acc.grace.None?
    ensures IlFold(acc, ["grace", ShowNat(grace)]) == acc.(grace := Some(grace))
  {
    var g := ShowNat(grace);
    NatReads(grace);
    Words(acc);
    DigitsPart(acc, g);
    IlNext(acc, "grace", [g]);
    IlNext(acc, g, []);
    assert ["grace", g] == ["grace"] + [g] && [g] == [g] + [];
  }

  lemma IlWithoutClose(maxIl: real, grace: Small)
    ensures ParseIl(Percent(maxIl) + "_" + ("grace" + "_" + ShowNat(grace))) ==
            Some(IlLimit(Shown(maxIl, 0), None, grace))
  {
    var p, g := Percent(maxIl), ShowNat(grace);
    var init := IlParts(None, None, None);
    PercentReads(maxIl);
    NatReads(grace);
    Words(init);
    Three(p, "grace", g);
    FirstPercent(init, maxIl);
    IlNext(init, p, ["grace", g]);
    assert [p, "grace", g] == [p] + ["grace", g];
    GraceParts(init.(maxIl := Some(Shown(maxIl, 0))), grace);
  }

  lemma CloseParts(acc: IlParts, closeIl: real, grace: Small)
    requires acc.maxIl.Some? && acc.closeIl.None? && acc.grace.None?
    ensures IlFold(acc, ["close"] + [Percent(closeIl), "grace", ShowNat(grace)]) ==
            acc.(closeIl := Some(Shown(closeIl, 0)), grace := Some(grace))
  {
    var q, g := Percent(closeIl), ShowNat(grace);
    Words(acc);
    IlNext(acc, "close", [q, "grace", g]);
    SecondPercent(acc, closeIl);
    IlNext(acc, q, ["grace", g]);
    assert [q, "grace", g] == [q] + ["grace", g];
    GraceParts(acc.(closeIl := Some(Shown(closeIl, 0))), grace);
  }

  lemma FiveParts(p: string, q: string, g: string)
    requires Plain(p) && Plain(q) && Plain(g)
    ensures Split(p + "_" + ("close" + "_" + (q + "_" + ("grace" + "_" + g)))) == [p] + (["close"] + [q, "grace", g])
  {
    assert Plain("grace") && Plain("close");
    Three(q, "grace", g);
    SplitNext("close", q + "_" + ("grace" + "_" + g));
    SplitNext(p, "close" + "_" + (q + "_" + ("grace" + "_" + g)));
  }

  lemma IlWithClose(maxIl: real, closeIl: real, grace: Small)
    ensures var tail := Percent(closeIl) + "_" + ("grace" + "_" + ShowNat(grace));
            ParseIl(Percent(maxIl) + "_" + ("close" + "_" + tail)) ==
            Some(IlLimit(Shown(maxIl, 0), Some(Shown(closeIl, 0)), grace))
  {
    var p, q, g := Percent(maxIl), Percent(closeIl), ShowNat(grace);
    PercentReads(maxIl);
    PercentReads(closeIl);
    NatReads(grace);
    FiveParts(p, q, g);
    var init := IlParts(None, None, None);
    FirstPercent(init, maxIl);
    IlNext(init, p, ["close"] + [q, "grace", g]);
    CloseParts(init.(maxIl := Some(Shown(maxIl, 0))), closeIl, grace);
  }

  lemma BandNext(acc: BandParts, a: string, rest: seq<string>)
    ensures BandFold(acc, [a] + rest) == BandFold(BandPart(acc, a), rest)
  {
    assert ([a] + rest)[1..] == rest;
  }

  lemma BandPieces(acc: BandParts, text: string)
    ensures BandPart(acc, "w" + text) == acc.(window := ParseNat(text, U32))
    ensures BandPart(acc, "k" + text) == acc.(k := ParseDecimal(text))
    ensures BandPart(acc, "r" + text) == acc.(every := ParseSmall(text))
  {
    AfterPrefix("w", text);
    AfterPrefix("k", text);
    AfterPrefix("r", text);
    PrefixDiffers("k" + text, "w", 0);
    PrefixDiffers("r" + text, "w", 0);
    PrefixDiffers("r" + text, "k", 0);
  }

  lemma BandParse(w: string, f: string, r: string)
    ensures BandFold(BandParts(None, None, None), ["w" + w, "k" + f, "r" + r]) ==
            BandParts(ParseNat(w, U32), ParseDecimal(f), ParseSmall(r))
  {
    var init := BandParts(None, None, None);
    var one := init.(window := ParseNat(w, U32));
    var two := one.(k := ParseDecimal(f));
    BandPieces(init, w);
    BandPieces(one, f);
    BandPieces(two, r);
    BandNext(init, "w" + w, ["k" + f, "r" + r]);
    BandNext(one, "k" + f, ["r" + r]);
    BandNext(two, "r" + r, []);
    assert ["w" + w, "k" + f, "r" + r] == ["w" + w] + ["k" + f, "r" + r];
    assert ["k" + f, "r" + r] == ["k" + f] + ["r" + r] && ["r" + r] == ["r" + r] + [];
  }

  /** The default format shows a number whole when given enough decimals. */
  lemma WholeReads(k: real, d: nat)
    requires Integral(Times(k, d))
    ensures ParseDecimal(Fixed(k, d)) == Some(k) && Plain(Fixed(k, d))
  {
    ShownIsNumeric(FixedNumeral(k, d));
    NumericIsTrimmed(Fixed(k, d));
    FixedRoundTrip(k, d);
    RoundedIsExact(k, d);
  }

  lemma BandsOf(w: string, f: string, r: string)
    requires Plain(w) && Plain(f) && Plain(r)
    ensures var window, k, every := ParseNat(w, U32), ParseDecimal(f), ParseSmall(r);
            window.Some? && k.Some? && every.Some? ==>
              ParseBollinger(("w" + w) + "_" + (("k" + f) + "_" + ("r" + r))) ==
              Some(Bollinger(window.value, k.value, every.value))
  {
    Three("w" + w, "k" + f, "r" + r);
    BandParse(w, f, r);
  }

  lemma BollingerReads(window: nat, k: real, every: Small, d: nat)
    requires window <= U32 && Integral(Times(k, d))
    ensures ParseBollinger(("w" + ShowNat(window)) + "_" + (("k" + Fixed(k, d)) + "_" + ("r" + ShowNat(every)))) ==
            Some(Bollinger(window, k, every))
  {
    NatRoundTrip(window, U32);
    NatReads(window);
    NatReads(every);
    WholeReads(k, d);
    BandsOf(ShowNat(window), Fixed(k, d), ShowNat(every));
  }

  lemma CandleOf(c: string, r: string)
    requires Plain(c) && Plain(r)
    ensures var candle, every := ParseSmall(c), ParseSmall(r);
            candle.Some? && every.Some? ==>
              ParseCandle(("c" + c) + "_" + ("r" + r)) == Some(LastCandle(candle.value, every.value))
  {
    Two("c" + c, "r" + r);
    PrefixDiffers(("c" + c) + "_" + ("r" + r), "t", 0);
    AfterPrefix("c", c);
    AfterPrefix("r", r);
    PrefixDiffers("r" + r, "c", 0);
    assert ["c" + c, "r" + r][1..] == ["r" + r] && ["r" + r][1..] == [];
    var init := CandleParts(None, None);
    var one := init.(candle := ParseSmall(c));
    assert StepPart(init, "c" + c) == one;
    assert StepFold(one, ["r" + r]) == StepPart(one, "r" + r);
  }

  lemma CandleReads(candle: Small, every: Small)
    ensures ParseCandle(("c" + ShowNat(candle)) + "_" + ("r" + ShowNat(every))) == Some(LastCandle(candle, every))
  {
    NatReads(candle);
    NatReads(every);
    CandleOf(ShowNat(candle), ShowNat(every));
  }

  lemma CandleTimeOf(c: string, r: string)
    requires Plain(c) && Plain(r)
    ensures var candle, every := ParseSmall(c), ParseSmall(r);
            candle.Some? && every.Some? ==>
              ParseCandle("t" + (c + "_" + ("r" + r))) == Some(LastCandleTime(candle.value, every.value))
  {
    Two(c, "r" + r);
    AfterPrefix("t", c + "_" + ("r" + r));
    AfterPrefix("r", r);
    assert [c, "r" + r][1..] == ["r" + r] && ["r" + r][1..] == [];
    var init := CandleParts(None, None);
    var one := init.(candle := ParseSmall(c));
    assert TimePart(init, c) == one;
    assert one.candle.Some? ==> TimeFold(one, ["r" + r]) == TimePart(one, "r" + r);
  }

  lemma CandleTimeReads(candle: Small, every: Small)
    ensures ParseCandle("t" + (ShowNat(candle) + "_" + ("r" + ShowNat(every)))) == Some(LastCandleTime(candle, every))
  {
    NatReads(candle);
    NatReads(every);
    CandleTimeOf(ShowNat(candle), ShowNat(every));
  }

  // ---------------------------------------------------------------------------------------
  // Dispatch
  // ---------------------------------------------------------------------------------------

  predicate EndsBlack(s: string) { s != [] && !White(s[|s| - 1]) }

  lemma StaysBlack(head: string, s: string)
    requires EndsBlack(s)
    ensures EndsBlack(head + s)
  {
    assert (head + s)[|head + s| - 1] == s[|s| - 1];
  }

  lemma NatEndsBlack(n: Small)
    ensures EndsBlack(ShowNat(n))
  {
    NatReads(n);
  }

  lemma DispatchThreshold(rest: string)
    requires EndsBlack(rest)
    ensures Parse("threshold_" + rest) == ParseThreshold(rest)
  {
    var name := "threshold_" + rest;
    NothingToTrim(name);
    AfterPrefix("threshold_", rest);
    assert name[0] == 't' && name[1] == 'h' && "static"[0] == 's';
  }

  lemma DispatchRetouch(rest: string)
    requires EndsBlack(rest)
    ensures Parse("retouch_shift_off" + rest) == ParseRetouch(rest)
  {
    var name := "retouch_shift_off" + rest;
    NothingToTrim(name);
    AfterPrefix("retouch_shift_off", rest);
    assert name[0] == 'r' && "static"[0] == 's' && "oor_recenter"[0] == 'o';
    PrefixDiffers(name, "threshold_", 0);
  }

  lemma DispatchIl(rest: string)
    requires EndsBlack(rest)
    ensures Parse("il_limit_" + rest) == ParseIl(rest)
  {
    var name := "il_limit_" + rest;
    NothingToTrim(name);
    AfterPrefix("il_limit_", rest);
    assert name[0] == 'i' && "static"[0] == 's' && "oor_recenter"[0] == 'o' && "retouch_shift"[0] == 'r';
    PrefixDiffers(name, "threshold_", 0);
    PrefixDiffers(name, "retouch_shift_off", 0);
  }

  lemma DispatchPeriodicSteps(rest: string)
    requires EndsBlack(rest)
    ensures Parse("periodic_steps_" + rest) == ParsePeriodicSteps(rest)
  {
    var name := "periodic_steps_" + rest;
    NothingToTrim(name);
    AfterPrefix("periodic_steps_", rest);
    assert name[0] == 'p' && "static"[0] == 's' && "oor_recenter"[0] == 'o' && "retouch_shift"[0] == 'r';
    PrefixDiffers(name, "threshold_", 0);
    PrefixDiffers(name, "retouch_shift_off", 0);
    PrefixDiffers(name, "il_limit_", 0);
  }

  lemma DispatchPeriodic(rest: string)
    requires EndsBlack(rest) && rest[0] != 's'
    ensures Parse("periodic_" + rest) == ParsePeriodic(rest)
  {
    var name := "periodic_" + rest;
    NothingToTrim(name);
    AfterPrefix("periodic_", rest);
    assert name[0] == 'p' && "static"[0] == 's' && "oor_recenter"[0] == 'o' && "retouch_shift"[0] == 'r';
    assert name[9] == rest[0] && "periodic_steps_"[9] == 's';
    PrefixDiffers(name, "threshold_", 0);
    PrefixDiffers(name, "retouch_shift_off", 0);
    PrefixDiffers(name, "il_limit_", 0);
    PrefixDiffers(name, "periodic_steps_", 9);
  }

  lemma DispatchBollinger(rest: string)
    requires EndsBlack(rest)
    ensures Parse("bollinger_" + rest) == ParseBollinger(rest)
  {
    var name := "bollinger_" + rest;
    NothingToTrim(name);
    AfterPrefix("bollinger_", rest);
    assert name[0] == 'b' && "static"[0] == 's' && "oor_recenter"[0] == 'o' && "retouch_shift"[0] == 'r';
    PrefixDiffers(name, "threshold_", 0);
    PrefixDiffers(name, "retouch_shift_off", 0);
    PrefixDiffers(name, "il_limit_", 0);
    PrefixDiffers(name, "periodic_steps_", 0);
    PrefixDiffers(name, "periodic_", 0);
  }

  lemma DispatchCandle(rest: string)
    requires EndsBlack(rest)
    ensures Parse("last_candle_" + rest) == ParseCandle(rest)
  {
    var name := "last_candle_" + rest;
    NothingToTrim(name);
    AfterPrefix("last_candle_", rest);
    assert name[0] == 'l' && "static"[0] == 's' && "oor_recenter"[0] == 'o' && "retouch_shift"[0] == 'r';
    PrefixDiffers(name, "threshold_", 0);
    PrefixDiffers(name, "retouch_shift_off", 0);
    PrefixDiffers(name, "il_limit_", 0);
    PrefixDiffers(name, "periodic_steps_", 0);
    PrefixDiffers(name, "periodic_", 0);
    PrefixDiffers(name, "bollinger_", 0);
  }

  // ---------------------------------------------------------------------------------------
  // Round trip
  // ---------------------------------------------------------------------------------------

  lemma FixedLabels()
    ensures Parse("static") == Some(Static)
    ensures Parse("oor_recenter") == Some(OorRecenter)
    ensures Parse("retouch_shift") == Some(RetouchShift(0.0))
  {
    NothingToTrim("static");
    NothingToTrim("oor_recenter");
    NothingToTrim("retouch_shift");
    assert "static"[0] == 's' && "oor_recenter"[0] == 'o' && "retouch_shift"[0] == 'r';
    PrefixDiffers("oor_recenter", "threshold_", 0);
    PrefixDiffers("retouch_shift", "threshold_", 0);
  }

  /** The parameters the source's types and formats allow. */
  predicate Printable(s: Strategy, kDecimals: nat) {
    s.Bollinger? ==> s.window <= U32 && Integral(Times(s.k, kDecimals))
  }

  lemma ThresholdRoundTrip(pct: real, minHours: u64, immediate: bool, d: nat)
    ensures var s := Threshold(pct, minHours, immediate); Parse(Label(s, d)) == Some(Canonical(s))
  {
    var p := Percent(pct);
    PercentReads(pct);
    if minHours > 0 || !immediate {
      var tail := "min" + ShowNat(minHours) + "h_oor" + (if immediate then "immediate" else "delayed");
      assert tail[|tail| - 1] == if immediate then 'e' else 'd';
      var rest := p + "_" + tail;
      assert rest == p + ("_" + tail) && rest[|rest| - 1] == tail[|tail| - 1];
      ThresholdReads(pct, "_" + tail);
      DispatchThreshold(rest);
    } else {
      assert p + "" == p;
      ThresholdReads(pct, "");
      DispatchThreshold(p);
    }
  }

  lemma IlRoundTrip(maxIl: real, closeIl: Option<real>, grace: u64, d: nat)
    ensures var s := IlLimit(maxIl, closeIl, grace); Parse(Label(s, d)) == Some(Canonical(s))
  {
    var p, g := Percent(maxIl), ShowNat(grace);
    NatReads(grace);
    if closeIl.Some? {
      var tail := "close" + "_" + (Percent(closeIl.value) + "_" + ("grace" + "_" + g));
      assert tail[|tail| - 1] == g[|g| - 1];
      IlWithClose(maxIl, closeIl.value, grace);
      DispatchIl(p + "_" + tail);
    } else {
      var tail := "grace" + "_" + g;
      assert tail[|tail| - 1] == g[|g| - 1];
      IlWithoutClose(maxIl, grace);
      DispatchIl(p + "_" + tail);
    }
  }

  lemma PeriodicRoundTrip(h: u64, d: nat)
    ensures Parse(Label(Periodic(h), d)) == Some(Periodic(h))
  {
    NatReads(h);
    PeriodicReads(h);
    DispatchPeriodic(ShowNat(h) + "h");
  }

  lemma PeriodicStepsRoundTrip(n: u64, d: nat)
    ensures Parse(Label(PeriodicSteps(n), d)) == Some(PeriodicSteps(n))
  {
    NatReads(n);
    DispatchPeriodicSteps(ShowNat(n));
  }

  lemma RetouchBody(offset: real)
    ensures Parse("retouch_shift_off" + (Fixed(offset * 100.0, 4) + "pct")) == Some(RetouchShift(Shown(offset, 4)))
  {
    var f := Fixed(offset * 100.0, 4);
    RetouchReads(offset);
    assert EndsBlack("pct");
    StaysBlack(f, "pct");
    DispatchRetouch(f + "pct");
  }

  lemma RetouchLabel(offset: real, d: nat)
    ensures Label(RetouchShift(offset), d) ==
            if Abs(offset) < EPSILON then "retouch_shift"
            else "retouch_shift_off" + (Fixed(offset * 100.0, 4) + "pct")
  {
  }

  lemma RetouchRoundTrip(offset: real, d: nat)
    ensures Parse(Label(RetouchShift(offset), d)) == Some(Canonical(RetouchShift(offset)))
  {
    RetouchLabel(offset, d);
    if Abs(offset) < EPSILON {
      FixedLabels();
    } else {
      RetouchBody(offset);
    }
  }

  lemma BollingerBody(window: nat, k: real, every: u64, d: nat)
    requires window <= U32 && Integral(Times(k, d))
    ensures var tail := ("k" + Fixed(k, d)) + "_" + ("r" + ShowNat(every));
            Parse("bollinger_" + (("w" + ShowNat(window)) + "_" + tail)) == Some(Bollinger(window, k, every))
  {
    var w, f, r := "w" + ShowNat(window), "k" + Fixed(k, d), "r" + ShowNat(every);
    BollingerReads(window, k, every, d);
    NatEndsBlack(every);
    StaysBlack("r", ShowNat(every));
    StaysBlack(f + "_", r);
    StaysBlack(w + "_", f + "_" + r);
    DispatchBollinger(w + "_" + (f + "_" + r));
  }

  lemma BollingerLabel(window: nat, k: real, every: u64, d: nat)
    ensures Label(Bollinger(window, k, every), d) ==
            "bollinger_" + (("w" + ShowNat(window)) + "_" + (("k" + Fixed(k, d)) + "_" + ("r" + ShowNat(every))))
  {
  }

  lemma BollingerRoundTrip(window: nat, k: real, every: u64, d: nat)
    requires window <= U32 && Integral(Times(k, d))
    ensures Parse(Label(Bollinger(window, k, every), d)) == Some(Bollinger(window, k, every))
  {
    BollingerLabel(window, k, every, d);
    BollingerBody(window, k, every, d);
  }

  lemma LastCandleBody(candle: u64, every: u64)
    ensures Parse("last_candle_" + (("c" + ShowNat(candle)) + "_" + ("r" + ShowNat(every)))) ==
            Some(LastCandle(candle, every))
  {
    var c, r := "c" + ShowNat(candle), "r" + ShowNat(every);
    CandleReads(candle, every);
    NatEndsBlack(every);
    StaysBlack("r", ShowNat(every));
    StaysBlack(c + "_", r);
    DispatchCandle(c + "_" + r);
  }

  lemma LastCandleTimeBody(candle: u64, every: u64)
    ensures Parse("last_candle_" + ("t" + (ShowNat(candle) + "_" + ("r" + ShowNat(every))))) ==
            Some(LastCandleTime(candle, every))
  {
    var c, r := ShowNat(candle), "r" + ShowNat(every);
    CandleTimeReads(candle, every);
    NatEndsBlack(every);
    StaysBlack("r", ShowNat(every));
    StaysBlack(c + "_", r);
    StaysBlack("t", c + "_" + r);
    DispatchCandle("t" + (c + "_" + r));
  }

  lemma CandleLabels(candle: u64, every: u64, d: nat)
    ensures Label(LastCandle(candle, every), d) ==
            "last_candle_" + (("c" + ShowNat(candle)) + "_" + ("r" + ShowNat(every)))
    ensures Label(LastCandleTime(candle, every), d) ==
            "last_candle_" + ("t" + (ShowNat(candle) + "_" + ("r" + ShowNat(every))))
  {
  }

  lemma LastCandleRoundTrip(candle: u64, every: u64, d: nat)
    ensures Parse(Label(LastCandle(candle, every), d)) == Some(LastCandle(candle, every))
  {
    CandleLabels(candle, every, d);
    LastCandleBody(candle, every);
  }

  lemma LastCandleTimeRoundTrip(candle: u64, every: u64, d: nat)
    ensures Parse(Label(LastCandleTime(candle, every), d)) == Some(LastCandleTime(candle, every))
  {
    CandleLabels(candle, every, d);
    LastCandleTimeBody(candle, every);
  }

  /** Parsing a printed label gives the strategy with its percentages as shown. */
  lemma RoundTrip(s: Strategy, d: nat)
    requires Printable(s, d)
    ensures Parse(Label(s, d)) == Some(Canonical(s))
  {
    match s
    case Static => FixedLabels();
    case OorRecenter => FixedLabels();
    case Threshold(pct, minHours, immediate) => ThresholdRoundTrip(pct, minHours, immediate, d);
    case Periodic(h) => PeriodicRoundTrip(h, d);
    case PeriodicSteps(n) => PeriodicStepsRoundTrip(n, d);
    case IlLimit(maxIl, closeIl, grace) => IlRoundTrip(maxIl, closeIl, grace, d);
    case RetouchShift(offset) => RetouchRoundTrip(offset, d);
    case Bollinger(window, k, every) => BollingerRoundTrip(window, k, every, d);
    case LastCandle(candle, every) => LastCandleRoundTrip(candle, every, d);
    case LastCandleTime(candle, every) => LastCandleTimeRoundTrip(candle, every, d);
  }

  lemma EmptyIsNoStrategy()
    ensures Parse("empty") == None
  {
    NothingToTrim("empty");
    assert "empty"[0] == 'e' && "static"[0] == 's' && "oor_recenter"[0] == 'o' && "retouch_shift"[0] == 'r';
    PrefixDiffers("empty", "threshold_", 0);
    PrefixDiffers("empty", "retouch_shift_off", 0);
    PrefixDiffers("empty", "il_limit_", 0);
    PrefixDiffers("empty", "periodic_steps_", 0);
    PrefixDiffers("empty", "periodic_", 0);
    PrefixDiffers("empty", "bollinger_", 0);
    PrefixDiffers("empty", "last_candle_", 0);
  }

  /** The name a run reports parses to its strategy as shown, or to none on an empty path. */
  lemma NameTellsStrategy(cfg: Config, d: nat)
    requires Printable(cfg.strategy, d)
    ensures Parse(ReportedName(cfg, d)) == if cfg.steps == [] then None else Some(Canonical(cfg.strategy))
    ensures ReportedName(cfg, d) == "empty" <==> cfg.steps == []
  {
    EmptyIsNoStrategy();
    if cfg.steps != [] {
      RoundTrip(cfg.strategy, d);
    }
  }

  /** Two strategies with one label are the same as far as the parser can tell. */
  lemma NoConfusion(s: Strategy, t: Strategy, d: nat, e: nat)
    requires Printable(s, d) && Printable(t, e) && Label(s, d) == Label(t, e)
    ensures Canonical(s) == Canonical(t)
  {
    RoundTrip(s, d);
    RoundTrip(t, e);
  }

  /** The strategies a label keeps whole. */
  predicate Kept(s: Strategy) {
    match s
    case Threshold(pct, minHours, immediate) => Integral(pct * 100.0) && minHours == 0 && immediate
    case IlLimit(maxIl, closeIl, _) => Integral(maxIl * 100.0) && (closeIl.Some? ==> Integral(closeIl.value * 100.0))
    case RetouchShift(offset) => Integral(offset * 1000000.0)
    case _ => true
  }

  lemma ShownWhole(x: real)
    ensures Shown(x, 0) == x <==> Integral(x * 100.0)
  {
    RoundedIsExact(x * 100.0, 0);
    assert Shown(x, 0) == Rounded(x * 100.0, 0) / 100.0;
    assert Times(x * 100.0, 0) == x * 100.0;
  }

  lemma ShownFour(x: real)
    ensures Shown(x, 4) == x <==> Integral(x * 1000000.0)
  {
    RoundedIsExact(x * 100.0, 4);
    assert Shown(x, 4) == Rounded(x * 100.0, 4) / 100.0;
    assert Pow10(1) == 10.0 && Pow10(2) == 100.0 && Pow10(3) == 1000.0 && Pow10(4) == 10000.0;
    assert Times(x * 100.0, 4) == x * 1000000.0;
  }

  lemma TinyIsZero(x: real)
    ensures Abs(x) < EPSILON ==> (Integral(x * 1000000.0) <==> x == 0.0)
  {
  }

  lemma CanonicalIsKept(s: Strategy)
    ensures Canonical(s) == s <==> Kept(s)
  {
    match s
    case Threshold(pct, _, _) => ShownWhole(pct);
    case IlLimit(maxIl, closeIl, _) =>
      ShownWhole(maxIl);
      if closeIl.Some? {
        ShownWhole(closeIl.value);
      }
    case RetouchShift(offset) =>
      TinyIsZero(offset);
      ShownFour(offset);
    case _ =>
  }

  /** Parsing gives back the very strategy exactly when the label keeps it whole. */
  lemma ExactlyKept(s: Strategy, d: nat)
    requires Printable(s, d)
    ensures Parse(Label(s, d)) == Some(s) <==> Kept(s)
  {
    RoundTrip(s, d);
    CanonicalIsKept(s);
  }

  /** A threshold with a minimum interval of one hour comes back without it. */
  lemma IntervalIsLost(d: nat)
    ensures Parse(Label(Threshold(0.05, 1, true), d)) == Some(Threshold(0.05, 0, true))
  {
    ThresholdRoundTrip(0.05, 1, true, d);
    ShownWhole(0.05);
    assert (0.05 * 100.0).Floor == 5;
  }
}
