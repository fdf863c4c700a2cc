/**
 The schedule editor's reading and writing of cron text (frontend/src/pages/Agents.tsx):
 parseCronToConfig turns the text into a form, configToCron prints a form.
 */
module Cron {
  import opened Wrappers
  import opened Text

  datatype Kind = Daily | Weekdays | Interval | Custom

  /** ScheduleConfig; an interval of None is a missing one or NaN. */
  datatype Config = Config(kind: Kind, time: Option<string>, interval: Option<int>, cron: Option<string>)

  const DEFAULT_TIME := "15:30"
  const DEFAULT_CRON := "0 15 * * *"
  const DEFAULT_INTERVAL := 30

  function DailyAt(time: string): Config { Config(Daily, Some(time), None, None) }
  function WeekdaysAt(time: string): Config { Config(Weekdays, Some(time), None, None) }
  function Every(minutes: int): Config { Config(Interval, None, Some(minutes), None) }
  function CustomCron(cron: string): Config { Config(Custom, None, None, Some(cron)) }

  function Clock(h: int, m: int): string {
    PadStart2(IntToString(h)) + ":" + PadStart2(IntToString(m))
  }

  /** Five words joined by single spaces. */
  function Line(a: string, b: string, c: string, d: string, e: string): string {
    a + " " + (b + " " + (c + " " + (d + " " + e)))
  }

  function Fields(cron: string): seq<string> {
    SplitSpaces(Trim(cron))
  }

  function Parse(cron: string): Config {
    if cron == "" then DailyAt(DEFAULT_TIME)
    else
      var parts := Fields(cron);
      if |parts| != 5 then CustomCron(cron)
      else
        var minute, hour, dayOfWeek := parts[0], parts[1], parts[4];
        if "*/" <= minute && ParseInt(minute[2..]).Some? then Every(ParseInt(minute[2..]).value)
        else
          var m, h := ParseInt(minute), ParseInt(hour);
          if m.Some? && h.Some? && dayOfWeek == "1-5" then WeekdaysAt(Clock(h.value, m.value))
          else if m.Some? && h.Some? && dayOfWeek == "*" then DailyAt(Clock(h.value, m.value))
          else CustomCron(cron)
  }

  /** A number in a template string; NaN prints as its name. */
  function Show(n: Option<int>): string {
    if n.Some? then IntToString(n.value) else "NaN"
  }

  /** The value of `a || b` on strings that may be missing. */
  function OrDefault(a: Option<string>, b: string): string {
    if a.Some? && a.value != "" then a.value else b
  }

  function TimeLine(m: Option<int>, h: Option<int>, dayOfWeek: string): string {
    Line(Show(m), Show(h), "*", "*", dayOfWeek)
  }

  function IntervalLine(n: int): string {
    Line("*/" + IntToString(n), "*", "*", "*", "*")
  }

  function PrintTime(time: Option<string>, dayOfWeek: string): string {
    var parts := SplitOn(OrDefault(time, DEFAULT_TIME), ':');
    TimeLine(if |parts| > 1 then ParseInt(parts[1]) else None, ParseInt(parts[0]), dayOfWeek)
  }

  function Print(config: Config): string {
    match config.kind
    case Daily => PrintTime(config.time, "*")
    case Weekdays => PrintTime(config.time, "1-5")
    case Interval =>
      if config.interval.Some? && config.interval.value != 0 then IntervalLine(config.interval.value)
      else IntervalLine(DEFAULT_INTERVAL)
    case Custom => OrDefault(config.cron, DEFAULT_CRON)
  }

  /** What the editor makes of a schedule that is opened and saved untouched. */
  function Normalise(cron: string): string {
    Print(Parse(cron))
  }

  // ---- Five printed fields are read back ------------------------------------------------------

  predicate IsWord(w: string) {
    w != "" && NoSpace(w)
  }

  predicate Tight(s: string) {
    s != "" && !IsSpace(s[0]) && !IsSpace(s[|s| - 1])
  }

  lemma {:induction false} TrimNothing(s: string)
    requires Tight(s)
    ensures Trim(s) == s
  {}

  lemma {:induction false} JoinWord(a: string, rest: string)
    requires IsWord(a) && Tight(rest)
    ensures Tight(a + " " + rest) && SplitSpaces(a + " " + rest) == [a] + SplitSpaces(rest)
  {
    var s := a + " " + rest;
    assert s[0] == a[0] && s[|s| - 1] == rest[|rest| - 1];
    SplitFirstWord(a, rest);
  }

  lemma {:induction false} SplitThree(c: string, d: string, e: string)
    requires IsWord(c) && IsWord(d) && IsWord(e)
    ensures Tight(c + " " + (d + " " + e)) && SplitSpaces(c + " " + (d + " " + e)) == [c, d, e]
  {
    hide IsSpace;
    SplitOneWord(e);
    JoinWord(d, e);
    assert SplitSpaces(d + " " + e) == [d, e];
    JoinWord(c, d + " " + e);
  }

  lemma {:induction false} JoinTwo(a: string, b: string, rest: string)
    requires IsWord(a) && IsWord(b) && Tight(rest)
    ensures Tight(a + " " + (b + " " + rest))
    ensures SplitSpaces(a + " " + (b + " " + rest)) == [a, b] + SplitSpaces(rest)
  {
    hide IsSpace, SplitSpaces;
    JoinWord(b, rest);
    JoinWord(a, b + " " + rest);
  }

  lemma {:induction false} FieldsOfLine(a: string, b: string, c: string, d: string, e: string)
    requires IsWord(a) && IsWord(b) && IsWord(c) && IsWord(d) && IsWord(e)
    ensures Fields(Line(a, b, c, d, e)) == [a, b, c, d, e]
  {
    SplitThree(c, d, e);
    JoinTwo(a, b, c + " " + (d + " " + e));
    TrimNothing(Line(a, b, c, d, e));
  }

  lemma {:induction false} ShowIsAWord(n: Option<int>)
    ensures IsWord(Show(n)) && Show(n)[0] != '*' && ParseInt(Show(n)) == n
  {
    if n.Some? {
      PrintedIntIsAWord(n.value);
      ParsePrintedInt(n.value);
    } else {
      assert DigitPrefix("NaN", 10) == "";
    }
  }

  lemma {:induction false} ClockParts(h: int, m: int, dayOfWeek: string)
    ensures PrintTime(Some(Clock(h, m)), dayOfWeek) == TimeLine(Some(m), Some(h), dayOfWeek)
  {
    var a, b := PadStart2(IntToString(h)), PadStart2(IntToString(m));
    PrintedIntIsAWord(h);
    PrintedIntIsAWord(m);
    assert Clock(h, m) == a + [':'] + b;
    SplitOnPrefix(a, b, ':');
    SplitOnNone(b, ':');
    ParsePrintedInt(h);
    ParsePrintedInt(m);
  }

  lemma {:induction false} FieldsOfTimeLine(m: Option<int>, h: Option<int>, dow: string)
    requires dow == "*" || dow == "1-5"
    ensures TimeLine(m, h, dow) != "" && Fields(TimeLine(m, h, dow)) == [Show(m), Show(h), "*", "*", dow]
  {
    ShowIsAWord(m);
    ShowIsAWord(h);
    assert IsWord("*") && IsWord(dow);
    hide IsWord, Fields, ParseInt, Show;
    FieldsOfLine(Show(m), Show(h), "*", "*", dow);
  }

  lemma {:induction false} ParseOfFields(line: string, minute: string, hour: string, dow: string)
    requires line != "" && Fields(line) == [minute, hour, "*", "*", dow]
    requires minute != "" && minute[0] != '*' && (dow == "*" || dow == "1-5")
    ensures var m, h := ParseInt(minute), ParseInt(hour);
            Parse(line) ==
            if m.None? || h.None? then CustomCron(line)
            else if dow == "*" then DailyAt(Clock(h.value, m.value))
            else WeekdaysAt(Clock(h.value, m.value))
  {}

  /** How a printed time of day is read back, also when it is not a number. */
  lemma {:induction false} ParseTimeLine(m: Option<int>, h: Option<int>, dow: string)
    requires dow == "*" || dow == "1-5"
    ensures Fields(TimeLine(m, h, dow)) == [Show(m), Show(h), "*", "*", dow]
    ensures Parse(TimeLine(m, h, dow)) ==
            if m.None? || h.None? then CustomCron(TimeLine(m, h, dow))
            else if dow == "*" then DailyAt(Clock(h.value, m.value))
            else WeekdaysAt(Clock(h.value, m.value))
  {
    ShowIsAWord(m);
    ShowIsAWord(h);
    FieldsOfTimeLine(m, h, dow);
    hide Parse, Fields, ParseInt, Clock, Show, TimeLine, IsSpace;
    ParseOfFields(TimeLine(m, h, dow), Show(m), Show(h), dow);
  }

  lemma {:induction false} ParseIntervalLine(n: int)
    ensures Fields(IntervalLine(n)) == ["*/" + IntToString(n), "*", "*", "*", "*"]
    ensures Parse(IntervalLine(n)) == Every(n)
  {
    var minute := "*/" + IntToString(n);
    PrintedIntIsAWord(n);
    assert IsWord("*");
    assert NoSpace(minute);
    FieldsOfLine(minute, "*", "*", "*", "*");
    assert minute[2..] == IntToString(n);
    ParsePrintedInt(n);
  }

  // ---- Round trips ----------------------------------------------------------------------------

  /** Every daily or weekday form, for any hour and minute, survives printing and parsing. */
  lemma {:induction false} ParsePrintTime(h: int, m: int)
    ensures Parse(Print(DailyAt(Clock(h, m)))) == DailyAt(Clock(h, m))
    ensures Parse(Print(WeekdaysAt(Clock(h, m)))) == WeekdaysAt(Clock(h, m))
  {
    ClockParts(h, m, "*");
    ClockParts(h, m, "1-5");
    ParseTimeLine(Some(m), Some(h), "*");
    ParseTimeLine(Some(m), Some(h), "1-5");
  }

  /** An interval form survives iff it is not zero; zero comes back as the default. */
  lemma {:induction false} ParsePrintInterval(n: int)
    ensures Parse(Print(Every(n))) == Every(n) <==> n != 0
    ensures Parse(Print(Every(0))) == Every(DEFAULT_INTERVAL)
  {
    ParseIntervalLine(n);
    ParseIntervalLine(DEFAULT_INTERVAL);
  }

  lemma {:induction false} PrintedTimeIsStable(m: Option<int>, h: Option<int>, dow: string)
    requires dow == "*" || dow == "1-5"
    ensures Normalise(TimeLine(m, h, dow)) == TimeLine(m, h, dow)
  {
    ParseTimeLine(m, h, dow);
    if m.Some? && h.Some? {
      ClockParts(h.value, m.value, dow);
    }
  }

  /** Whatever a form other than free text holds, its printed text is a fixed point of the editor. */
  lemma {:induction false} PrintedFormIsStable(config: Config)
    requires !config.kind.Custom?
    ensures Normalise(Print(config)) == Print(config)
  {
    if config.kind.Interval? {
      ParseIntervalLine(if config.interval.Some? && config.interval.value != 0 then config.interval.value
                        else DEFAULT_INTERVAL);
    } else {
      var parts := SplitOn(OrDefault(config.time, DEFAULT_TIME), ':');
      PrintedTimeIsStable(if |parts| > 1 then ParseInt(parts[1]) else None, ParseInt(parts[0]),
                          if config.kind.Daily? then "*" else "1-5");
    }
  }

  lemma {:induction false} CustomTextIsKept(cron: string)
    requires Parse(cron).kind.Custom?
    ensures Normalise(cron) == cron
  {}

  lemma {:induction false} NormaliseIdempotent(cron: string)
    ensures Normalise(Normalise(cron)) == Normalise(cron)
  {
    hide Parse, Print;
    if Parse(cron).kind.Custom? {
      CustomTextIsKept(cron);
    } else {
      PrintedFormIsStable(Parse(cron));
    }
  }

  // ---- The text of times and numbers -----------------------------------------------------------------

  const DIGITS := "0123456789"

  lemma {:induction false} TwoDigits(n: nat)
    requires n < 100
    ensures PadStart2(IntToString(n)) == [DIGITS[n / 10], DIGITS[n % 10]]
  {
    assert forall d: nat | d < 10 :: DigitChar(d) == DIGITS[d];
    if n >= 10 {
      assert IntToString(n) == Decimal(n / 10) + [DigitChar(n % 10)];
      assert Decimal(n / 10) == [DigitChar(n / 10)];
    }
  }

  /** A time of day is written HH:MM. */
  lemma {:induction false} ClockForm(h: nat, m: nat)
    requires h < 100 && m < 100
    ensures Clock(h, m) == [DIGITS[h / 10], DIGITS[h % 10], ':', DIGITS[m / 10], DIGITS[m % 10]]
  {
    TwoDigits(h);
    TwoDigits(m);
    hide IntToString, PadStart2;
  }

  /** What is printed for a form without a time, an interval, or a text. */
  lemma {:induction false} PrintDefaults(config: Config)
    ensures config.kind.Interval? && (config.interval.None? || config.interval == Some(0)) ==>
              Print(config) == IntervalLine(30)
    ensures config.kind.Custom? && (config.cron.None? || config.cron == Some("")) ==> Print(config) == "0 15 * * *"
    ensures config.kind.Daily? && (config.time.None? || config.time == Some("")) ==>
              Print(config) == Line("30", "15", "*", "*", "*")
    ensures config.kind.Weekdays? && (config.time.None? || config.time == Some("")) ==>
              Print(config) == Line("30", "15", "*", "*", "1-5")
  {
    assert IntToString(15) == "15" && IntToString(30) == "30";
    assert DEFAULT_TIME == Clock(15, 30);
    ClockParts(15, 30, "*");
    ClockParts(15, 30, "1-5");
  }

  /** A part of a time that is missing or no number is printed as NaN. */
  lemma {:induction false} MissingPartsAreNaN(time: string)
    requires time != "" && ':' !in time && ParseInt(time).None?
    ensures Print(DailyAt(time)) == Line("NaN", "NaN", "*", "*", "*")
    ensures Print(WeekdaysAt(time + ":7")) == Line("7", "NaN", "*", "*", "1-5")
  {
    SplitOnNone(time, ':');
    SplitOnPrefix(time, "7", ':');
    SplitOnNone("7", ':');
    assert time + ":7" == time + [':'] + "7";
    ParsePrintedInt(7);
    assert IntToString(7) == "7";
    hide ParseInt, SplitOn;
  }

  /** A list of minutes is read as its first number, so a schedule twice an hour is shown as once a day. */
  lemma {:induction false} ListIsReadAsNumber()
    ensures Parse(Line("0,30", "9", "*", "*", "*")) == DailyAt("09:00")
  {
    var line := Line("0,30", "9", "*", "*", "*");
    assert IsWord("0,30") && IsWord("9") && IsWord("*");
    FieldsOfLine("0,30", "9", "*", "*", "*");
    LeadingNumbers();
    NineOClock();
    assert line != "";
    hide Parse, ParseInt, Clock, Fields, Line, IsWord, IsSpace;
    ParseOfFields(line, "0,30", "9", "*");
  }

  lemma {:induction false} NineOClock()
    ensures Clock(9, 0) == "09:00"
  {
    ClockForm(9, 0);
  }

  lemma {:induction false} LeadingNumbers()
    ensures ParseInt("0,30") == Some(0) && ParseInt("9") == Some(9)
  {
    ParseIntReads("", "", "0", ",30");
    ParseIntReads("", "", "9", "");
    assert "" + "" + "0" + ",30" == "0,30" && "" + "" + "9" + "" == "9";
    assert "0"[..0] == "" && "9"[..0] == "" && ValueOf("0", 10) == 0 && ValueOf("9", 10) == 9;
    hide ParseInt;
  }

  // ---- When opening and saving keeps a schedule ------------------------------------------------

  /** The minute field of an interval. */
  predicate IsInterval(minute: string) {
    "*/" <= minute && ParseInt(minute[2..]).Some?
  }

  predicate IsTime(f: seq<string>)
    requires |f| == 5
  {
    ParseInt(f[0]).Some? && ParseInt(f[1]).Some? && f[4] in {"*", "1-5"}
  }

  /**
   The schedules the form can hold, by their fields: an interval in plain decimal, not zero and
   without any restriction; a time in plain decimal without restriction by day of month or month;
   and all text that is neither of the two.
   */
  predicate Representable(cron: string) {
    var f := Fields(cron);
    && cron != ""
    && (|f| == 5 ==>
          if IsInterval(f[0]) then f[1..] == ["*", "*", "*", "*"] && IsPlainDecimal(f[0][2..]) && f[0][2..] != "0"
          else if IsTime(f) then f[2] == "*" && f[3] == "*" && IsPlainDecimal(f[0]) && IsPlainDecimal(f[1])
          else true)
  }

  /** These guards are the parser's. */
  lemma {:induction false} KindOfFields(cron: string)
    requires cron != ""
    ensures var f := Fields(cron);
            && (Parse(cron).kind.Interval? <==> |f| == 5 && IsInterval(f[0]))
            && (Parse(cron).kind.Daily? || Parse(cron).kind.Weekdays? <==> |f| == 5 && !IsInterval(f[0]) && IsTime(f))
  {
    hide Fields, ParseInt, Clock;
  }

  lemma {:induction false} FiveFields(f: seq<string>, a: string, b: string, c: string, d: string, e: string)
    requires |f| == 5
    ensures f == [a, b, c, d, e] <==> f[0] == a && f[1] == b && f[2] == c && f[3] == d && f[4] == e
    ensures f[1..] == [b, c, d, e] <==> f[1] == b && f[2] == c && f[3] == d && f[4] == e
  {}

  lemma {:induction false} ParsedInterval(cron: string)
    requires cron != "" && Parse(cron).kind.Interval?
    ensures var f := Fields(cron);
            && |f| == 5 && "*/" <= f[0] && ParseInt(f[0][2..]).Some?
            && Parse(cron) == Every(ParseInt(f[0][2..]).value)
  {}

  lemma {:induction false} IntervalText(text: string)
    requires ParseInt(text).Some?
    ensures var n := ParseInt(text).value;
            text == IntToString(if n != 0 then n else DEFAULT_INTERVAL) <==> IsPlainDecimal(text) && text != "0"
  {
    PlainDecimalIff(text);
    ParsePrintedInt(DEFAULT_INTERVAL);
    ParsePrintedInt(0);
    assert IntToString(0) == "0";
    hide ParseInt, IsPlainDecimal, IntToString;
  }

  lemma {:induction false} SavingInterval(cron: string)
    requires cron != "" && Parse(cron).kind.Interval?
    ensures Fields(Normalise(cron)) == Fields(cron) <==> Representable(cron)
  {
    ParsedInterval(cron);
    KindOfFields(cron);
    var f := Fields(cron);
    IntervalText(f[0][2..]);
    var n := ParseInt(f[0][2..]).value;
    var k := if n != 0 then n else DEFAULT_INTERVAL;
    ParseIntervalLine(k);
    assert Normalise(cron) == IntervalLine(k);
    hide IntToString, Parse, Print, Fields, ParseInt, IntervalLine, IsPlainDecimal, IsTime;
    FiveFields(f, "*/" + IntToString(k), "*", "*", "*", "*");
    assert f[0] == "*/" + f[0][2..];
    assert ("*/" + IntToString(k))[2..] == IntToString(k);
  }

  lemma {:induction false} ParsedTime(cron: string)
    requires cron != "" && (Parse(cron).kind.Daily? || Parse(cron).kind.Weekdays?)
    ensures var f := Fields(cron);
            && |f| == 5 && ParseInt(f[0]).Some? && ParseInt(f[1]).Some?
            && f[4] == (if Parse(cron).kind.Daily? then "*" else "1-5")
            && Parse(cron).time == Some(Clock(ParseInt(f[1]).value, ParseInt(f[0]).value))
  {}

  lemma {:induction false} SavingTime(cron: string)
    requires cron != "" && (Parse(cron).kind.Daily? || Parse(cron).kind.Weekdays?)
    ensures Fields(Normalise(cron)) == Fields(cron) <==> Representable(cron)
  {
    ParsedTime(cron);
    KindOfFields(cron);
    var f := Fields(cron);
    PlainDecimalIff(f[0]);
    PlainDecimalIff(f[1]);
    var m, h, dow := ParseInt(f[0]), ParseInt(f[1]), f[4];
    hide IsSpace, Parse, Fields, ParseInt, Clock, PrintTime, TimeLine, IsPlainDecimal, IsInterval, IntToString;
    ClockParts(h.value, m.value, dow);
    assert Normalise(cron) == TimeLine(m, h, dow);
    ParseTimeLine(m, h, dow);
    FiveFields(f, Show(m), Show(h), "*", "*", dow);
  }

  lemma {:induction false} EmptyScheduleIsReplaced()
    ensures Normalise("") == TimeLine(Some(30), Some(15), "*")
  {
    assert IntToString(15) == "15" && IntToString(30) == "30";
    assert DEFAULT_TIME == Clock(15, 30);
    ClockParts(15, 30, "*");
  }

  /** Opening and saving a schedule keeps its fields iff the form can hold them. */
  lemma {:induction false} SavingKeepsFields(cron: string)
    ensures Fields(Normalise(cron)) == Fields(cron) <==> Representable(cron)
  {
    if cron == "" {
      EmptyScheduleIsReplaced();
      ParseTimeLine(Some(30), Some(15), "*");
    } else if Parse(cron).kind.Custom? {
      CustomTextIsKept(cron);
      KindOfFields(cron);
    } else if Parse(cron).kind.Interval? {
      SavingInterval(cron);
    } else {
      SavingTime(cron);
    }
  }

  lemma {:induction false} ParseShippedFields(cron: string)
    requires cron != "" && Fields(cron) == ["*/5", "9-15", "*", "*", "1-5"]
    ensures Parse(cron) == Every(5) && !Representable(cron)
  {
    ParsePrintedInt(5);
    assert IntToString(5) == "*/5"[2..];
    assert Fields(cron)[1..][0] == "9-15";
  }

  /** The shipped schedule of the intraday monitor loses its hours and weekdays when saved. */
  lemma {:induction false} IntradayScheduleIsWidened()
    ensures var shipped := Line("*/5", "9-15", "*", "*", "1-5");
            && Parse(shipped) == Every(5)
            && Normalise(shipped) == Line("*/5", "*", "*", "*", "*")
            && !Representable(shipped)
  {
    assert IsWord("*/5") && IsWord("9-15") && IsWord("*") && IsWord("1-5");
    FieldsOfLine("*/5", "9-15", "*", "*", "1-5");
    ParseShippedFields(Line("*/5", "9-15", "*", "*", "1-5"));
    assert "*/" + IntToString(5) == "*/5";
  }
}
