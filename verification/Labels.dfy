/**
 Strategy labels: the text a run prints for its strategy and the parser that reads it back.

 `RoundTrip` says exactly what comes back. The shown decimals of the Bollinger factor are a
 parameter, because the default format of a float shows as many as the number has.
 */
module Labels {
  import opened Options
  import opened Backtest
  import opened Decimals
  import opened Texts

  const U64: nat := 0xFFFF_FFFF_FFFF_FFFF
  const U32: nat := 0xFFFF_FFFF
  const EPSILON: real := 1.0 / 4503599627370496.0

  // ---------------------------------------------------------------------------------------
  // The printer
  // ---------------------------------------------------------------------------------------

  function Percent(x: real): string { Fixed(x * 100.0, 0) + "%" }

  function Label(s: Strategy, kDecimals: nat): string {
    match s
    case Static => "static"
    case OorRecenter => "oor_recenter"
    case Threshold(pct, minHours, immediate) =>
      if minHours > 0 || !immediate
      then
        var exit := if immediate then "immediate" else "delayed";
        "threshold_" + (Percent(pct) + "_" + ("min" + ShowNat(minHours) + "h_oor" + exit))
      else "threshold_" + Percent(pct)
    case Periodic(h) => "periodic_" + (ShowNat(h) + "h")
    case PeriodicSteps(n) => "periodic_steps_" + ShowNat(n)
    case IlLimit(maxIl, closeIl, grace) =>
      if closeIl.Some?
      then
        var tail := Percent(closeIl.value) + "_" + ("grace" + "_" + ShowNat(grace));
        "il_limit_" + (Percent(maxIl) + "_" + ("close" + "_" + tail))
      else "il_limit_" + (Percent(maxIl) + "_" + ("grace" + "_" + ShowNat(grace)))
    case RetouchShift(offset) =>
      if Abs(offset) < EPSILON then "retouch_shift"
      else "retouch_shift_off" + (Fixed(offset * 100.0, 4) + "pct")
    case Bollinger(window, k, every) =>
      "bollinger_" + (("w" + ShowNat(window)) + "_" + (("k" + Fixed(k, kDecimals)) + "_" + ("r" + ShowNat(every))))
    case LastCandle(candle, every) => "last_candle_" + (("c" + ShowNat(candle)) + "_" + ("r" + ShowNat(every)))
    case LastCandleTime(candle, every) => "last_candle_" + ("t" + (ShowNat(candle) + "_" + ("r" + ShowNat(every))))
  }

  /** The name a run reports for its strategy. */
  function ReportedName(cfg: Config, kDecimals: nat): string {
    if cfg.steps == [] then "empty" else Label(cfg.strategy, kDecimals)
  }

  /** A whole backtest with all it reports. */
  method RunNamed(cfg: Config, m: Clmm, kDecimals: nat)
    returns (lowerUsd: real, upperUsd: real, name: string, summary: Summary)
    ensures (lowerUsd, upperUsd, summary) == Result(cfg, m) && name == ReportedName(cfg, kDecimals)
  {
    name := "empty";
    if cfg.steps != [] {
      name := Label(cfg.strategy, kDecimals);
    }
    lowerUsd, upperUsd, summary := RunSingle(cfg, m);
  }

  // ---------------------------------------------------------------------------------------
  // The parser
  // ---------------------------------------------------------------------------------------

  type Small = n: nat | n <= U64

  function ParseSmall(s: string): Option<Small> {
    var n := ParseNat(s, U64);
    if n.Some? then Some(n.value) else None
  }

  function HundredthOf(n: Numeral): real { n.Value() / 100.0 }

  function Hundredth(s: string): Option<real> {
    var n := ParseNumeral(s);
    if n.Some? then Some(HundredthOf(n.value)) else None
  }

  function ParseThreshold(rest: string): Option<Strategy> {
    var pct := Hundredth(Trim(TrimEndChar(Split(rest)[0], '%')));
    if pct.Some? then Some(Threshold(pct.value, 0, true)) else None
  }

  function ParseRetouch(rest: string): Option<Strategy> {
    var offset := Hundredth(Trim(TrimEndText(rest, "pct")));
    if offset.Some? then Some(RetouchShift(offset.value)) else None
  }

  datatype IlParts = IlParts(maxIl: Option<real>, closeIl: Option<real>, grace: Option<Small>)

  function IlPart(acc: IlParts, part: string): IlParts {
    if EndsWith(part, "%") then
      if acc.maxIl.None? then acc.(maxIl := Hundredth(part[..|part| - 1]))
      else if acc.closeIl.None? then acc.(closeIl := Hundredth(part[..|part| - 1]))
      else acc
    else if part == "close" then acc
    else if "grace" <= part then
      var v := After(part, "grace");
      if v == [] then acc else acc.(grace := ParseSmall(v))
    else if acc.grace.None? then acc.(grace := ParseSmall(part))
    else acc
  }

  function IlFold(acc: IlParts, parts: seq<string>): IlParts
    decreases |parts|
  {
    if parts == [] then acc else IlFold(IlPart(acc, parts[0]), parts[1..])
  }

  function ParseIl(rest: string): Option<Strategy> {
    var p := IlFold(IlParts(None, None, None), Split(rest));
    if p.maxIl.Some? then Some(IlLimit(p.maxIl.value, p.closeIl, p.grace.GetOr(0))) else None
  }

  function ParsePeriodicSteps(rest: string): Option<Strategy> {
    var n := ParseSmall(Trim(rest));
    if n.Some? then Some(PeriodicSteps(n.value)) else None
  }

  function ParsePeriodic(rest: string): Option<Strategy> {
    var n := ParseSmall(Trim(TrimEndChar(rest, 'h')));
    if n.Some? then Some(Periodic(n.value)) else None
  }

  datatype BandParts = BandParts(window: Option<nat>, k: Option<real>, every: Option<Small>)

  function BandPart(acc: BandParts, part: string): BandParts {
    if "w" <= part then acc.(window := ParseNat(After(part, "w"), U32))
    else if "k" <= part then acc.(k := ParseDecimal(After(part, "k")))
    else if "r" <= part then acc.(every := ParseSmall(After(part, "r")))
    else acc
  }

  function BandFold(acc: BandParts, parts: seq<string>): BandParts
    decreases |parts|
  {
    if parts == [] then acc else BandFold(BandPart(acc, parts[0]), parts[1..])
  }

  function ParseBollinger(rest: string): Option<Strategy> {
    var p := BandFold(BandParts(None, None, None), Split(rest));
    if p.window.Some? && p.k.Some? && p.every.Some? then Some(Bollinger(p.window.value, p.k.value, p.every.value))
    else None
  }

  datatype CandleParts = CandleParts(candle: Option<Small>, every: Option<Small>)

  function TimePart(acc: CandleParts, part: string): CandleParts {
    if acc.candle.None? then acc.(candle := ParseSmall(part))
    else if "r" <= part then acc.(every := ParseSmall(After(part, "r")))
    else acc
  }

  function TimeFold(acc: CandleParts, parts: seq<string>): CandleParts
    decreases |parts|
  {
    if parts == [] then acc else TimeFold(TimePart(acc, parts[0]), parts[1..])
  }

  function ParseCandleTime(rest: string): Option<Strategy> {
    var p := TimeFold(CandleParts(None, None), Split(rest));
    if p.candle.Some? && p.every.Some? then Some(LastCandleTime(p.candle.value, p.every.value)) else None
  }

  function StepPart(acc: CandleParts, part: string): CandleParts {
    if "c" <= part then acc.(candle := ParseSmall(After(part, "c")))
    else if "r" <= part then acc.(every := ParseSmall(After(part, "r")))
    else acc
  }

  function StepFold(acc: CandleParts, parts: seq<string>): CandleParts
    decreases |parts|
  {
    if parts == [] then acc else StepFold(StepPart(acc, parts[0]), parts[1..])
  }

  function ParseCandle(rest: string): Option<Strategy> {
    if "t" <= rest then ParseCandleTime(After(rest, "t"))
    else
      var p := StepFold(CandleParts(None, None), Split(rest));
      if p.candle.Some? && p.every.Some? then Some(LastCandle(p.candle.value, p.every.value)) else None
  }

  function ParseTrimmed(name: string): Option<Strategy> {
    if name == "static" then Some(Static)
    else if "threshold_" <= name then ParseThreshold(After(name, "threshold_"))
    else if name == "oor_recenter" then Some(OorRecenter)
    else if name == "retouch_shift" then Some(RetouchShift(0.0))
    else if "retouch_shift_off" <= name then ParseRetouch(After(name, "retouch_shift_off"))
    else if "il_limit_" <= name then ParseIl(After(name, "il_limit_"))
    else if "periodic_steps_" <= name then ParsePeriodicSteps(After(name, "periodic_steps_"))
    else if "periodic_" <= name then ParsePeriodic(After(name, "periodic_"))
    else if "bollinger_" <= name then ParseBollinger(After(name, "bollinger_"))
    else if "last_candle_" <= name then ParseCandle(After(name, "last_candle_"))
    else None
  }

  function Parse(name: string): Option<Strategy> { ParseTrimmed(Trim(name)) }

  // ---------------------------------------------------------------------------------------
  // The parser's loops
  // ---------------------------------------------------------------------------------------

  lemma IlFoldFrom(acc: IlParts, parts: seq<string>, n: nat)
    requires n < |parts|
    ensures IlFold(acc, parts[n..]) == IlFold(IlPart(acc, parts[n]), parts[n + 1..])
  {
    assert parts[n..][0] == parts[n] && parts[n..][1..] == parts[n + 1..];
  }

  method ParseIlLimit(rest: string) returns (r: Option<Strategy>)
    ensures r == ParseIl(rest)
  {
    var maxIl: Option<real>, closeIl: Option<real>, grace: Option<Small> := None, None, None;
    var parts := Split(rest);
    for n := 0 to |parts|
      invariant IlFold(IlParts(maxIl, closeIl, grace), parts[n..]) == IlFold(IlParts(None, None, None), parts)
    {
      var part := parts[n];
      IlFoldFrom(IlParts(maxIl, closeIl, grace), parts, n);
      if EndsWith(part, "%") {
        var v := part[..|part| - 1];
        if maxIl.None? {
          maxIl := Hundredth(v);
        } else if closeIl.None? {
          closeIl := Hundredth(v);
        }
      } else if part == "close" {
        continue;
      } else if "grace" <= part {
        var v := After(part, "grace");
        if v == [] {
          continue;
        }
        grace := ParseSmall(v);
      } else if grace.None? {
        grace := ParseSmall(part);
      }
    }
    if maxIl.None? {
      return None;
    }
    r := Some(IlLimit(maxIl.value, closeIl, grace.GetOr(0)));
  }

  method ParseBands(rest: string) returns (r: Option<Strategy>)
    ensures r == ParseBollinger(rest)
  {
    var window: Option<nat>, k: Option<real>, every: Option<Small> := None, None, None;
    var parts := Split(rest);
    for n := 0 to |parts|
      invariant BandFold(BandParts(window, k, every), parts[n..]) == BandFold(BandParts(None, None, None), parts)
    {
      var part := parts[n];
      assert parts[n..][0] == part && parts[n..][1..] == parts[n + 1..];
      if "w" <= part {
        window := ParseNat(After(part, "w"), U32);
      } else if "k" <= part {
        k := ParseDecimal(After(part, "k"));
      } else if "r" <= part {
        every := ParseSmall(After(part, "r"));
      }
    }
    if window.None? || k.None? || every.None? {
      return None;
    }
    r := Some(Bollinger(window.value, k.value, every.value));
  }

  method ParseLastCandle(rest: string) returns (r: Option<Strategy>)
    ensures r == ParseCandle(rest)
  {
    var candle: Option<Small>, every: Option<Small> := None, None;
    if "t" <= rest {
      var parts := Split(After(rest, "t"));
      for n := 0 to |parts|
        invariant TimeFold(CandleParts(candle, every), parts[n..]) == TimeFold(CandleParts(None, None), parts)
      {
        var part := parts[n];
        assert parts[n..][0] == part && parts[n..][1..] == parts[n + 1..];
        if candle.None? {
          candle := ParseSmall(part);
        } else if "r" <= part {
          every := ParseSmall(After(part, "r"));
        }
      }
      if candle.None? || every.None? {
        return None;
      }
      return Some(LastCandleTime(candle.value, every.value));
    }
    var parts := Split(rest);
    for n := 0 to |parts|
      invariant StepFold(CandleParts(candle, every), parts[n..]) == StepFold(CandleParts(None, None), parts)
    {
      var part := parts[n];
      assert parts[n..][0] == part && parts[n..][1..] == parts[n + 1..];
      if "c" <= part {
        candle := ParseSmall(After(part, "c"));
      } else if "r" <= part {
        every := ParseSmall(After(part, "r"));
      }
    }
    if candle.None? || every.None? {
      return None;
    }
    r := Some(LastCandle(candle.value, every.value));
  }

  method ParseStrategyLabel(text: string) returns (r: Option<Strategy>)
    ensures r == Parse(text)
  {
    var name := Trim(text);
    if name == "static" {
      return Some(Static);
    }
    if "threshold_" <= name {
      var pct := Hundredth(Trim(TrimEndChar(Split(After(name, "threshold_"))[0], '%')));
      if pct.None? {
        return None;
      }
      return Some(Threshold(pct.value, 0, true));
    }
    if name == "oor_recenter" {
      return Some(OorRecenter);
    }
    if name == "retouch_shift" {
      return Some(RetouchShift(0.0));
    }
    if "retouch_shift_off" <= name {
      var offset := Hundredth(Trim(TrimEndText(After(name, "retouch_shift_off"), "pct")));
      if offset.None? {
        return None;
      }
      return Some(RetouchShift(offset.value));
    }
    if "il_limit_" <= name {
      r := ParseIlLimit(After(name, "il_limit_"));
      return;
    }
    if "periodic_steps_" <= name {
      var steps := ParseSmall(Trim(After(name, "periodic_steps_")));
      if steps.None? {
        return None;
      }
      return Some(PeriodicSteps(steps.value));
    }
    if "periodic_" <= name {
      var hours := ParseSmall(Trim(TrimEndChar(After(name, "periodic_"), 'h')));
      if hours.None? {
        return None;
      }
      return Some(Periodic(hours.value));
    }
    if "bollinger_" <= name {
      r := ParseBands(After(name, "bollinger_"));
      return;
    }
    if "last_candle_" <= name {
      r := ParseLastCandle(After(name, "last_candle_"));
      return;
    }
    r := None;
  }
}
