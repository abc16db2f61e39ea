/** The x-axis tick decisions of `Plot.plot_worker`: one independent branch per
    marker `D`, `H` and `min` (none for `M`), the halving search for the minute
    branch's major step, and minor ticks only for the full-size chart. */
module Ticks {
  import opened Wrappers
  import opened PyStr
  import opened PyNum
  import opened Query

  /** The matplotlib locators the branches install. */
  datatype Locator =
    | EveryDay                          // DayLocator()
    | EveryHour                         // HourLocator()
    | Hours(byHour: seq<int>)           // HourLocator(byhour=...)
    | Minutes(byMinute: seq<int>)       // MinuteLocator(byminute=...)
    | Seconds(bySecond: seq<int>)       // SecondLocator(bysecond=...)

  /** A locator with the date format of its labels. */
  datatype Ticker = Ticker(locator: Locator, format: string)

  /** The major and minor tickers of the x axis; None keeps matplotlib's default. */
  datatype XTicks = XTicks(major: Option<Ticker>, minor: Option<Ticker>)

  const NoTicks := XTicks(None, None)

  const DayFormat := "%m-%d"
  const DayMinorFormat := "\n\n%-I:%M %p"
  const HourFormat := "%-I %p"
  const HourMinorFormat := "\n\n%-I:%M %p"
  const MinuteFormat := "%-I:%M %p"
  const MinuteMinorFormat := "\n\n%-I:%M:%S %p"

  // ------------------------------------------------- the minute branch's step

  function Pow2(e: nat): (r: nat)
    ensures r >= 1
  {
    if e == 0 then 1 else 2 * Pow2(e - 1)
  }

  /** The exponent at which the halved divisor `m`, starting at 8 = 2^3, is 0.0:
      2^-1074 is the smallest double, and halving it rounds to zero. */
  const Underflow := -1075

  /** `round(k / m)` for `m == 2^e`, the divisor being a power of two, so that
      the quotient is exact; `e < 0` is reached only when `k == 0`. */
  function QuotientRound(k: int, e: int): int {
    if e >= 0 then RoundHalfEven(k, Pow2(e)) else k * Pow2(-e)
  }

  /** The `while n == 0` loop from the iteration where `m == 2^e` on: the first
      nonzero `round(k / m)`, or `ZeroDivisionError` once `m` has become 0.0. */
  function HalvingSearch(k: int, e: int): Result<int>
    decreases e - Underflow
  {
    if e <= Underflow then Failure(ZeroDivisionError)
    else
      var n := QuotientRound(k, e);
      if n != 0 then Success(n) else HalvingSearch(k, e - 1)
  }

  /** The major step of the minute branch, the loop starting from `m = 8`. */
  function MinuteStep(k: int): Result<int> {
    HalvingSearch(k, 3)
  }

  /** For any nonzero `k` the loop stops within four iterations, at the first
      nonzero of `round(k/8)`, `round(k/4)`, `round(k/2)` and `k`. */
  lemma MinuteStepWithinFourIterations(k: int)
    requires k != 0
    ensures MinuteStep(k) == Success(
      if RoundHalfEven(k, 8) != 0 then RoundHalfEven(k, 8)
      else if RoundHalfEven(k, 4) != 0 then RoundHalfEven(k, 4)
      else if RoundHalfEven(k, 2) != 0 then RoundHalfEven(k, 2)
      else k)
  {
    assert Pow2(3) == 8 && Pow2(2) == 4 && Pow2(1) == 2 && Pow2(0) == 1;
    assert RoundHalfEven(k, 1) == k;
  }

  /** For a positive `k` the step is positive: 1 up to `k = 4`, then `round(k/8)`,
      within 4 of `k / 8` in eighths. */
  lemma MinuteStepPositive(k: int)
    requires k >= 1
    ensures MinuteStep(k).Success?
    ensures var s := MinuteStep(k).value;
      && s >= 1
      && (k <= 4 ==> s == 1)
      && (k >= 5 ==> s == RoundHalfEven(k, 8) && 8 * s - 4 <= k <= 8 * s + 4)
  {
    MinuteStepWithinFourIterations(k);
    if k <= 4 {
      assert RoundHalfEven(k, 8) == 0;
      if k <= 2 {
        assert RoundHalfEven(k, 4) == 0;
        assert RoundHalfEven(k, 2) == if k == 1 then 0 else 1;
      } else {
        assert RoundHalfEven(k, 4) == 1;
      }
    } else {
      assert RoundHalfEven(k, 8) >= 1;
    }
  }

  /** With `k == 0` every quotient is zero, so the divisor halves until it is 0.0
      and the division raises. */
  lemma {:induction false} HalvingSearchOfZero(e: int)
    ensures HalvingSearch(0, e) == Failure(ZeroDivisionError)
    decreases e - Underflow
  {
    if e > Underflow {
      assert QuotientRound(0, e) == 0;
      HalvingSearchOfZero(e - 1);
    }
  }

  lemma MinuteStepOfZero()
    ensures MinuteStep(0) == Failure(ZeroDivisionError)
  {
    HalvingSearchOfZero(3);
  }

  /** `15min` steps by 2 and `4min` by 1; `20min` steps by 2, giving ten ticks, not eight. */
  lemma MinuteStepExamples()
    ensures MinuteStep(15) == Success(2)
    ensures MinuteStep(4) == Success(1)
    ensures MinuteStep(20) == Success(2)
  {
    MinuteStepWithinFourIterations(15);
    MinuteStepWithinFourIterations(4);
    MinuteStepWithinFourIterations(20);
  }

  // ------------------------------------------------------------- the branches

  /** The `if "D" in time` branch, applied to the tickers set so far. */
  function DayTicks(time: string, thumb: bool, x: XTicks): Result<XTicks> {
    var n :- Magnitude(time, "D");
    var major := Some(Ticker(EveryDay, DayFormat));
    if thumb then Success(x.(major := major))
    else
      var hours :- Range(0, 24, n);
      Success(XTicks(major, Some(Ticker(Hours(hours), DayMinorFormat))))
  }

  /** The `if "H" in time` branch. */
  function HourTicks(time: string, thumb: bool, x: XTicks): Result<XTicks> {
    var n :- Magnitude(time, "H");
    var major := Some(Ticker(EveryHour, HourFormat));
    if thumb then Success(x.(major := major))
    else
      var minutes :- Range(0, 60, n * 2);
      Success(XTicks(major, Some(Ticker(Minutes(minutes), HourMinorFormat))))
  }

  /** The `if "min" in time` branch. */
  function MinuteTicks(time: string, thumb: bool, x: XTicks): Result<XTicks> {
    var k :- Magnitude(time, "min");
    var step :- MinuteStep(k);
    var minutes :- Range(0, 60, step);
    var major := Some(Ticker(Minutes(minutes), MinuteFormat));
    if thumb then Success(x.(major := major))
    else
      var seconds :- Range(0, 60, k * 2);
      Success(XTicks(major, Some(Ticker(Seconds(seconds), MinuteMinorFormat))))
  }

  /** The three independent branches in order; a later one replaces what an
      earlier one set, and a token holding only `M` keeps the defaults. */
  function TickPlan(time: string, thumb: bool): Result<XTicks> {
    var afterDay :- if Contains(time, "D") then DayTicks(time, thumb, NoTicks) else Success(NoTicks);
    var afterHour :- if Contains(time, "H") then HourTicks(time, thumb, afterDay) else Success(afterDay);
    if Contains(time, "min") then MinuteTicks(time, thumb, afterHour) else Success(afterHour)
  }

  /** The `while n == 0` loop of the minute branch: `m` starts at 8 and halves
      (`m == 2^e`) until `round(k / m)` is nonzero or `m` has become 0.0. */
  method SearchMinuteStep(k: int) returns (r: Result<int>)
    ensures r == MinuteStep(k)
  {
    var n := 0;
    var e := 3;
    while n == 0
      invariant Underflow <= e <= 3
      invariant n == 0 ==> HalvingSearch(k, e) == MinuteStep(k)
      invariant n != 0 ==> MinuteStep(k) == Success(n)
      decreases e - Underflow
    {
      if e <= Underflow {
        return Failure(ZeroDivisionError);
      }
      n := QuotientRound(k, e);
      e := e - 1;
    }
    r := Success(n);
  }

  /** The tick section of `plot_worker`: the three branches in source order. */
  method PlanTicks(time: string, thumb: bool) returns (r: Result<XTicks>)
    ensures r == TickPlan(time, thumb)
  {
    var ticks := NoTicks;
    if Contains(time, "D") {
      var n :- Magnitude(time, "D");
      ticks := ticks.(major := Some(Ticker(EveryDay, DayFormat)));
      if !thumb {
        var hours :- Range(0, 24, n);
        ticks := ticks.(minor := Some(Ticker(Hours(hours), DayMinorFormat)));
      }
    }
    if Contains(time, "H") {
      var n :- Magnitude(time, "H");
      ticks := ticks.(major := Some(Ticker(EveryHour, HourFormat)));
      if !thumb {
        var minutes :- Range(0, 60, n * 2);
        ticks := ticks.(minor := Some(Ticker(Minutes(minutes), HourMinorFormat)));
      }
    }
    if Contains(time, "min") {
      // The source parses the prefix in every iteration of the loop; the first
      // iteration always runs, so parsing once before it raises the same error.
      var k :- Magnitude(time, "min");
      var n :- SearchMinuteStep(k);
      var minutes :- Range(0, 60, n);
      ticks := ticks.(major := Some(Ticker(Minutes(minutes), MinuteFormat)));
      if !thumb {
        var seconds :- Range(0, 60, k * 2);
        ticks := ticks.(minor := Some(Ticker(Seconds(seconds), MinuteMinorFormat)));
      }
    }
    r := Success(ticks);
  }

  // ---------------------------------------------------------- what is planned

  /** The minute branch's search succeeds exactly for a nonzero prefix, and
      then yields a nonzero step. */
  lemma MinuteStepSucceeds(k: int)
    ensures MinuteStep(k).Success? <==> k != 0
    ensures MinuteStep(k).Success? ==> MinuteStep(k).value != 0
  {
    if k == 0 {
      MinuteStepOfZero();
    } else {
      MinuteStepWithinFourIterations(k);
    }
  }

  /** The plan succeeds exactly when every branch that fires parses its prefix,
      the full-size chart has nonzero minor steps, and the minute prefix is nonzero. */
  lemma TickPlanSucceeds(time: string, thumb: bool)
    ensures TickPlan(time, thumb).Success? <==>
      && (Contains(time, "D") ==>
            Magnitude(time, "D").Success? && (thumb || Magnitude(time, "D").value != 0))
      && (Contains(time, "H") ==>
            Magnitude(time, "H").Success? && (thumb || Magnitude(time, "H").value != 0))
      && (Contains(time, "min") ==>
            Magnitude(time, "min").Success? && Magnitude(time, "min").value != 0)
  {
    var m := Magnitude(time, "min");
    if m.Success? {
      MinuteStepSucceeds(m.value);
    }
  }

  /** What each branch sets when it succeeds: its own major ticker, and a minor
      ticker for the full-size chart only, computed from the same prefix. */
  lemma DayTicksShape(time: string, thumb: bool, x: XTicks)
    requires DayTicks(time, thumb, x).Success?
    ensures var y := DayTicks(time, thumb, x).value;
      && y.major == Some(Ticker(EveryDay, DayFormat))
      && (thumb ==> y.minor == x.minor)
      && (!thumb ==> y.minor == Some(Ticker(Hours(Range(0, 24, Magnitude(time, "D").value).value), DayMinorFormat)))
  {
  }

  lemma HourTicksShape(time: string, thumb: bool, x: XTicks)
    requires HourTicks(time, thumb, x).Success?
    ensures var y := HourTicks(time, thumb, x).value;
      && y.major == Some(Ticker(EveryHour, HourFormat))
      && (thumb ==> y.minor == x.minor)
      && (!thumb ==> y.minor == Some(Ticker(Minutes(Range(0, 60, Magnitude(time, "H").value * 2).value), HourMinorFormat)))
  {
  }

  lemma MinuteTicksShape(time: string, thumb: bool, x: XTicks)
    requires MinuteTicks(time, thumb, x).Success?
    ensures var y := MinuteTicks(time, thumb, x).value;
      && y.major == Some(Ticker(Minutes(Range(0, 60, MinuteStep(Magnitude(time, "min").value).value).value), MinuteFormat))
      && (thumb ==> y.minor == x.minor)
      && (!thumb ==> y.minor == Some(Ticker(Seconds(Range(0, 60, Magnitude(time, "min").value * 2).value), MinuteMinorFormat)))
  {
  }

  /** The plan as its three steps: `h` is what the `D` and `H` branches leave. */
  lemma TickPlanSteps(time: string, thumb: bool) returns (d: Result<XTicks>, h: Result<XTicks>)
    requires TickPlan(time, thumb).Success?
    ensures d == if Contains(time, "D") then DayTicks(time, thumb, NoTicks) else Success(NoTicks)
    ensures d.Success?
    ensures h == if Contains(time, "H") then HourTicks(time, thumb, d.value) else d
    ensures h.Success?
    ensures TickPlan(time, thumb) == if Contains(time, "min") then MinuteTicks(time, thumb, h.value) else h
  {
    d := if Contains(time, "D") then DayTicks(time, thumb, NoTicks) else Success(NoTicks);
    h := if Contains(time, "H") then HourTicks(time, thumb, d.value) else d;
  }

  /** The major ticker is the one of the last branch that fires, the minute
      branch's at the step the halving loop found; a token without `D`, `H`
      or `min` (such as `1M`) keeps matplotlib's defaults. */
  lemma TickPlanMajor(time: string, thumb: bool)
    requires TickPlan(time, thumb).Success?
    ensures var major := TickPlan(time, thumb).value.major;
      && (Contains(time, "min") ==>
            && Magnitude(time, "min").Success?
            && MinuteStep(Magnitude(time, "min").value).Success?
            && MinuteStep(Magnitude(time, "min").value).value != 0
            && major == Some(Ticker(Minutes(Range(0, 60, MinuteStep(Magnitude(time, "min").value).value).value), MinuteFormat)))
      && (!Contains(time, "min") && Contains(time, "H") ==> major == Some(Ticker(EveryHour, HourFormat)))
      && (!Contains(time, "min") && !Contains(time, "H") && Contains(time, "D") ==> major == Some(Ticker(EveryDay, DayFormat)))
      && (!Contains(time, "min") && !Contains(time, "H") && !Contains(time, "D") ==> TickPlan(time, thumb).value == NoTicks)
  {
    var d, h := TickPlanSteps(time, thumb);
    if Contains(time, "D") {
      DayTicksShape(time, thumb, NoTicks);
    }
    if Contains(time, "H") {
      HourTicksShape(time, thumb, d.value);
    }
    if Contains(time, "min") {
      MinuteTicksShape(time, thumb, h.value);
      MinuteStepSucceeds(Magnitude(time, "min").value);
    }
  }

  /** A thumbnail never gets minor ticks; a full-size chart gets them from the
      last branch that fires, from the same prefix. */
  lemma TickPlanMinor(time: string, thumb: bool)
    requires TickPlan(time, thumb).Success?
    ensures Contains(time, "min") ==> Magnitude(time, "min").Success? && Magnitude(time, "min").value != 0
    ensures !thumb && Contains(time, "H") ==> Magnitude(time, "H").Success? && Magnitude(time, "H").value != 0
    ensures !thumb && Contains(time, "D") ==> Magnitude(time, "D").Success? && Magnitude(time, "D").value != 0
    ensures var minor := TickPlan(time, thumb).value.minor;
      && (thumb ==> minor.None?)
      && (!thumb && Contains(time, "min") ==>
            minor == Some(Ticker(Seconds(Range(0, 60, Magnitude(time, "min").value * 2).value), MinuteMinorFormat)))
      && (!thumb && !Contains(time, "min") && Contains(time, "H") ==>
            minor == Some(Ticker(Minutes(Range(0, 60, Magnitude(time, "H").value * 2).value), HourMinorFormat)))
      && (!thumb && !Contains(time, "min") && !Contains(time, "H") && Contains(time, "D") ==>
            minor == Some(Ticker(Hours(Range(0, 24, Magnitude(time, "D").value).value), DayMinorFormat)))
  {
    TickPlanSucceeds(time, thumb);
    var d, h := TickPlanSteps(time, thumb);
    if Contains(time, "D") {
      DayTicksShape(time, thumb, NoTicks);
    }
    if Contains(time, "H") {
      HourTicksShape(time, thumb, d.value);
    }
    if Contains(time, "min") {
      MinuteTicksShape(time, thumb, h.value);
    }
  }

  /** The thumbnail's major ticker is the full-size chart's whenever both succeed. */
  lemma TickPlanThumbSameMajor(time: string)
    requires TickPlan(time, false).Success? && TickPlan(time, true).Success?
    ensures TickPlan(time, true).value.major == TickPlan(time, false).value.major
  {
    TickPlanMajor(time, true);
    TickPlanMajor(time, false);
    if Contains(time, "min") {
      var t, f := TickPlanSteps(time, true);
      var t', f' := TickPlanSteps(time, false);
      MinuteTicksShape(time, true, f.value);
      MinuteTicksShape(time, false, f'.value);
    }
  }

  // ----------------------------------------------------------------- examples

  lemma FifteenMinutesMagnitude()
    ensures Magnitude("15min", "min") == Success(15)
  {
    FifteenMinutesPrefix();
    FifteenText();
    MagnitudeOfText("15min", "min", 15);
  }

  lemma FifteenMinutesPrefix()
    ensures Before("15min", "min") == "15"
  {
    var t := "15min";
    assert t[2..5] == "min";
    FindAt(t, "min", 2);
  }

  lemma FifteenText()
    ensures IntToString(15) == "15"
  {
  }

  lemma FifteenMinutesMarkers()
    ensures !Contains("15min", "D") && !Contains("15min", "H") && Contains("15min", "min")
  {
    ContainsChar("15min", 'D');
    ContainsChar("15min", 'H');
    assert IsAt("15min", "min", 2);
  }

  /** `15min` as a thumbnail: a major tick every 2 minutes and no minor ticks. */
  lemma FifteenMinuteThumbnail()
    ensures TickPlan("15min", true) == Success(XTicks(Some(Ticker(Minutes(Range(0, 60, 2).value), MinuteFormat)), None))
  {
    FifteenMinutesMagnitude();
    FifteenMinutesMarkers();
    MinuteStepExamples();
  }

  /** A month window has no branch of its own and keeps matplotlib's default ticks. */
  lemma MonthKeepsDefaultTicks(thumb: bool)
    ensures TickPlan("1M", thumb) == Success(NoTicks)
  {
    MonthMarkers();
  }

  lemma MonthMarkers()
    ensures !Contains("1M", "D") && !Contains("1M", "H") && !Contains("1M", "min")
  {
    ContainsChar("1M", 'D');
    ContainsChar("1M", 'H');
  }
}
