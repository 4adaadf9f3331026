/** The text of durations in log lines: durationFormat of pkg/operation/purge/purge.go. */
module DurationText {
  import opened Base
  import opened Decimal

  /** Length of a duration in nanoseconds. */
  function Magnitude(d: Duration): nat {
    if d < 0 then -(d as int) else d
  }

  /** Nearest whole second of a non-negative duration, halves rounded up. */
  function Seconds(d: nat): nat {
    (d + 500_000_000) / 1_000_000_000
  }

  function Unit(n: nat, unit: char, rest: string): string {
    Dec(n) + ([unit] + rest)
  }

  /** time.Duration.String of a whole number of seconds. */
  function Clock(seconds: nat): string {
    if seconds < 60 then Unit(seconds, 's', "")
    else if seconds < 3600 then Unit(seconds / 60, 'm', Unit(seconds % 60, 's', ""))
    else Unit(seconds / 3600, 'h', Unit(seconds / 60 % 60, 'm', Unit(seconds % 60, 's', "")))
  }

  /** time.Duration.Round(time.Second).String(): rounding stays at the minimum, which prints with its fraction. */
  function RoundedText(d: Duration): string
    requires d >= 0 || d == MIN64
  {
    if d < 0 then "-2562047h47m16.854775808s" else Clock(Seconds(d))
  }

  function Text(days: nat, clock: string): string {
    if days == 0 then clock else Dec(days) + " days and " + clock
  }

  /** Reads a number and the unit after it. */
  function ReadUnit(s: string): Option<(nat, char, string)> {
    var (n, r) := ScanNat(s);
    if r == [] then None else Some((n, r[0], r[1..]))
  }

  predicate IsUnit(c: char) {
    c == 'h' || c == 'm' || c == 's'
  }

  function InSeconds(n: nat, unit: char): nat {
    if unit == 'h' then 3600 * n else if unit == 'm' then 60 * n else n
  }

  /** Seconds named by text of the form 1h2m3s, 2m3s or 3s. */
  function ReadClock(s: string): Option<nat>
    decreases |s|
  {
    var u := ReadUnit(s);
    if u.None? then (if s == [] then Some(0) else None)
    else
      var (n, unit, rest) := u.value;
      if !IsUnit(unit) || |rest| >= |s| then None
      else
        var seconds := ReadClock(rest);
        if seconds.None? then None else Some(InSeconds(n, unit) + seconds.value)
  }

  /** Seconds named by durationFormat's text, with or without a number of days. */
  function ReadText(s: string): Option<nat> {
    var (days, r) := ScanNat(s);
    if " days and " <= r then
      match ReadClock(r[10..])
      case None => None
      case Some(seconds) => Some(86_400 * days + seconds)
    else ReadClock(s)
  }

  lemma ReadUnitText(n: nat, unit: char, rest: string)
    requires !IsDigit(unit)
    ensures ReadUnit(Unit(n, unit, rest)) == Some((n, unit, rest))
    ensures |rest| < |Unit(n, unit, rest)|
  {
    ScanDec(n, [unit] + rest);
    assert ([unit] + rest)[1..] == rest;
  }

  lemma ReadClockStep(s: string, n: nat, unit: char, rest: string, seconds: nat)
    requires ReadUnit(s) == Some((n, unit, rest)) && |rest| < |s| && IsUnit(unit) && ReadClock(rest) == Some(seconds)
    ensures ReadClock(s) == Some(InSeconds(n, unit) + seconds)
  {
    hide ReadUnit, InSeconds;
  }

  lemma ReadClockUnit(n: nat, unit: char, rest: string, seconds: nat)
    requires IsUnit(unit) && ReadClock(rest) == Some(seconds)
    ensures ReadClock(Unit(n, unit, rest)) == Some(InSeconds(n, unit) + seconds)
  {
    hide ReadClock, InSeconds, ReadUnit;
    ReadUnitText(n, unit, rest);
    ReadClockStep(Unit(n, unit, rest), n, unit, rest, seconds);
  }

  lemma ReadSeconds(s: nat)
    ensures ReadClock(Unit(s, 's', "")) == Some(s)
  {
    ReadClockUnit(s, 's', "", 0);
  }

  lemma ReadMinutes(m: nat, s: nat)
    ensures ReadClock(Unit(m, 'm', Unit(s, 's', ""))) == Some(60 * m + s)
  {
    ReadSeconds(s);
    ReadClockUnit(m, 'm', Unit(s, 's', ""), s);
  }

  lemma ReadHours(h: nat, m: nat, s: nat)
    ensures ReadClock(Unit(h, 'h', Unit(m, 'm', Unit(s, 's', "")))) == Some(3600 * h + 60 * m + s)
  {
    hide ReadClock, Unit;
    ReadMinutes(m, s);
    ReadClockUnit(h, 'h', Unit(m, 'm', Unit(s, 's', "")), 60 * m + s);
  }

  lemma ClockFields(seconds: nat)
    ensures seconds == 60 * (seconds / 60) + seconds % 60
    ensures seconds == 3600 * (seconds / 3600) + 60 * (seconds / 60 % 60) + seconds % 60
  {
    assert seconds / 3600 == seconds / 60 / 60;
  }

  lemma ReadClockText(seconds: nat)
    ensures ReadClock(Clock(seconds)) == Some(seconds)
  {
    hide ReadClock, Unit;
    ClockFields(seconds);
    var h, m, r := seconds / 3600, seconds / 60 % 60, seconds % 60;
    if seconds < 60 {
      ReadSeconds(seconds);
    } else if seconds < 3600 {
      ReadMinutes(seconds / 60, r);
    } else {
      ReadHours(h, m, r);
    }
  }

  /** The text gives hours, minutes below 60 and seconds below 60, and begins with the first of them that is not 0. */
  lemma ClockFormat(seconds: nat) returns (h: nat, m: nat, s: nat)
    ensures seconds == 3600 * h + 60 * m + s && m < 60 && s < 60
    ensures Clock(seconds) ==
            (if h > 0 then Dec(h) + "h" else "") + (if h > 0 || m > 0 then Dec(m) + "m" else "") + Dec(s) + "s"
  {
    hide Dec;
    ClockFields(seconds);
    h, m, s := seconds / 3600, seconds / 60 % 60, seconds % 60;
    if seconds < 60 {
      assert m == 0;
    } else if seconds < 3600 {
      assert seconds / 60 == m;
      assert Unit(m, 'm', Unit(s, 's', "")) == Dec(m) + "m" + Dec(s) + "s";
    } else {
      assert Unit(h, 'h', Unit(m, 'm', Unit(s, 's', ""))) == Dec(h) + "h" + Dec(m) + "m" + Dec(s) + "s";
    }
  }

  /** A clock text never continues with days. */
  lemma ClockHasNoDays(seconds: nat)
    ensures !(" days and " <= ScanNat(Clock(seconds)).1)
  {
    if seconds < 60 {
      ReadUnitText(seconds, 's', "");
    } else if seconds < 3600 {
      ReadUnitText(seconds / 60, 'm', Unit(seconds % 60, 's', ""));
    } else {
      ReadUnitText(seconds / 3600, 'h', Unit(seconds / 60 % 60, 'm', Unit(seconds % 60, 's', "")));
    }
  }

  lemma ReadDays(days: nat, clock: string)
    ensures ScanNat(Dec(days) + (" days and " + clock)) == (days, " days and " + clock)
    ensures (" days and " + clock)[10..] == clock
  {
    var tail := " days and " + clock;
    assert tail[0] == ' ';
    ScanDec(days, tail);
  }

  lemma ReadLongText(days: nat, clock: string, seconds: nat)
    requires ReadClock(clock) == Some(seconds)
    ensures ReadText(Dec(days) + (" days and " + clock)) == Some(86_400 * days + seconds)
  {
    hide ReadClock, ScanNat, Dec;
    ReadDays(days, clock);
  }

  lemma ReadShortText(clock: string, seconds: nat)
    requires ReadClock(clock) == Some(seconds) && !(" days and " <= ScanNat(clock).1)
    ensures ReadText(clock) == Some(seconds)
  {
    hide ReadClock, ScanNat;
  }

  /** The text names exactly the length it was made from: a day counts 24 hours, the clock the rest. */
  lemma ReadTextOfText(days: nat, seconds: nat)
    ensures ReadText(Text(days, Clock(seconds))) == Some(86_400 * days + seconds)
  {
    hide ReadClock, ReadText, Clock, ScanNat;
    var clock := Clock(seconds);
    ReadClockText(seconds);
    if days == 0 {
      ClockHasNoDays(seconds);
      ReadShortText(clock, seconds);
    } else {
      ReadLongText(days, clock, seconds);
      assert Text(days, clock) == Dec(days) + (" days and " + clock);
    }
  }

  /** What durationFormat returns, as a function. */
  function Formatted(d: Duration): string {
    if d == MIN64 then RoundedText(d)
    else Text(Magnitude(d) / 86_400_000_000_000, RoundedText(Magnitude(d) % 86_400_000_000_000))
  }

  lemma SecondsOfDays(n: nat, rest: nat)
    ensures Seconds(n * 86_400_000_000_000 + rest) == 86_400 * n + Seconds(rest)
  {
  }

  /** The text names the length of d rounded to the second. */
  lemma ReadFormatted(d: Duration)
    requires d != MIN64
    ensures ReadText(Formatted(d)) == Some(Seconds(Magnitude(d)))
  {
    var n, rest := Magnitude(d) / 86_400_000_000_000, Magnitude(d) % 86_400_000_000_000;
    hide ReadText, Clock, Seconds;
    assert Formatted(d) == Text(n, Clock(Seconds(rest)));
    SplitDays(Magnitude(d));
    ReadTextOfText(n, Seconds(rest));
  }

  lemma SplitDays(m: nat)
    ensures Seconds(m) == 86_400 * (m / 86_400_000_000_000) + Seconds(m % 86_400_000_000_000)
  {
    SecondsOfDays(m / 86_400_000_000_000, m % 86_400_000_000_000);
  }

  /** durationFormat: its loop takes whole days off one at a time. */
  method DurationFormat(d: Duration) returns (text: string)
    ensures text == Formatted(d)
    ensures d != MIN64 ==> ReadText(text) == Some(Seconds(Magnitude(d)))
  {
    var duration: Duration := if d < 0 then Wrap64(-(d as int)) else d;
    var days := 0;
    while duration >= 86_400_000_000_000
      invariant d == MIN64 ==> duration == MIN64 && days == 0
      invariant d != MIN64 ==> duration >= 0 && Magnitude(d) == days * 86_400_000_000_000 + duration
      decreases duration
    {
      days := days + 1;
      duration := duration - 86_400_000_000_000;
    }
    if days == 0 {
      text := RoundedText(duration);
    } else {
      text := Dec(days) + " days and " + RoundedText(duration);
    }
    if d != MIN64 {
      DivisionIsUnique(Magnitude(d), days, duration);
      ReadFormatted(d);
    }
  }

  lemma DivisionIsUnique(m: nat, q: nat, r: nat)
    requires m == q * 86_400_000_000_000 + r && r < 86_400_000_000_000
    ensures q == m / 86_400_000_000_000 && r == m % 86_400_000_000_000
  {
  }

  /** For example a day, an hour, a minute and a second, and the same without the day. */
  lemma FormattedExamples()
    ensures Formatted(90_061_000_000_000) == "1 days and 1h1m1s" && Formatted(-3_661_000_000_000) == "1h1m1s"
  {
    ClockExample();
    hide Clock;
    assert Seconds(3_661_000_000_000) == 3661;
    assert Dec(1) + " days and " + "1h1m1s" == "1 days and 1h1m1s";
  }

  lemma ClockExample()
    ensures Clock(3661) == "1h1m1s"
  {
    assert Dec(1) == "1";
    assert Unit(1, 's', "") == "1s";
    assert Unit(1, 'm', "1s") == "1m1s";
    assert Unit(1, 'h', "1m1s") == "1h1m1s";
  }

  /** Two durations print the same text only when they round to the same number of seconds. */
  lemma FormattedInjective(a: Duration, b: Duration)
    requires a != MIN64 && b != MIN64 && Formatted(a) == Formatted(b)
    ensures Seconds(Magnitude(a)) == Seconds(Magnitude(b))
    ensures a >= 0 && b >= 0 && a % 1_000_000_000 == 0 && b % 1_000_000_000 == 0 ==> a == b
  {
    ReadFormatted(a);
    ReadFormatted(b);
    WholeSeconds(a);
    WholeSeconds(b);
  }

  lemma WholeSeconds(a: Duration)
    ensures a >= 0 && a % 1_000_000_000 == 0 ==> 1_000_000_000 * Seconds(a) == a
  {
  }

  /** Rounding follows the day loop, so the clock part reaches 24 hours just under a whole day. */
  lemma ClockRange(d: Duration)
    ensures var rest := Magnitude(d) % 86_400_000_000_000;
            Seconds(rest) <= 86_400 && (Seconds(rest) == 86_400 <==> rest >= 86_399_500_000_000)
  {
  }
}
