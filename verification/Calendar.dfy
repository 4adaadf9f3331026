/** The proleptic Gregorian calendar and the lastFetchTime text layout "2006-01-02T15:04:05Z". */
module Calendar {
  import opened Base
  import opened Decimal

  predicate IsLeap(y: int) {
    y % 4 == 0 && (y % 100 != 0 || y % 400 == 0)
  }

  function DaysInMonth(y: int, m: int): int {
    if m == 2 then (if IsLeap(y) then 29 else 28)
    else if m == 4 || m == 6 || m == 9 || m == 11 then 30
    else 31
  }

  /** How many of the years before y are multiples of 4, of 100 and of 400. */
  function Fours(y: nat): nat { (y + 3) / 4 }

  function Hundreds(y: nat): nat { (y + 99) / 100 }

  function FourHundreds(y: nat): nat { (y + 399) / 400 }

  /** Days from 0000-01-01 to the first of January of year y. */
  function DaysBeforeYear(y: nat): int {
    365 * y + Fours(y) - Hundreds(y) + FourHundreds(y)
  }

  /** Days from the first of January of year y to the first of month m. */
  function DaysBeforeMonth(y: nat, m: nat): nat
    requires 1 <= m <= 13
  {
    [0, 31, 59, 90, 120, 151, 181, 212, 243, 273, 304, 334, 365][m - 1] + (if m > 2 && IsLeap(y) then 1 else 0)
  }

  datatype Date = Date(year: nat, month: nat, day: nat) {
    predicate Valid() {
      1 <= month <= 12 && 1 <= day <= DaysInMonth(year, month)
    }

    /** The day after, by the rules of the calendar. */
    function Next(): Date {
      if day < DaysInMonth(year, month) then Date(year, month, day + 1)
      else if month < 12 then Date(year, month + 1, 1)
      else Date(year + 1, 1, 1)
    }
  }

  /** Day number of a date, counted from 0000-01-01. */
  function DayNumber(d: Date): nat
    requires d.Valid()
  {
    DaysBeforeYear(d.year) + DaysBeforeMonth(d.year, d.month) + d.day - 1
  }

  lemma FoursStep(y: nat)
    ensures Fours(y + 1) == Fours(y) + if y % 4 == 0 then 1 else 0
  {
  }

  lemma HundredsStep(y: nat)
    ensures Hundreds(y + 1) == Hundreds(y) + if y % 100 == 0 then 1 else 0
  {
  }

  lemma FourHundredsStep(y: nat)
    ensures FourHundreds(y + 1) == FourHundreds(y) + if y % 400 == 0 then 1 else 0
  {
  }

  lemma CenturiesAreMultiples(y: nat)
    ensures y % 100 == 0 ==> y % 4 == 0
    ensures y % 400 == 0 ==> y % 100 == 0
  {
    if y % 100 == 0 {
      assert y == 4 * (25 * (y / 100));
    }
    if y % 400 == 0 {
      assert y == 100 * (4 * (y / 400));
    }
  }

  lemma YearLength(y: nat)
    ensures DaysBeforeYear(y + 1) == DaysBeforeYear(y) + DaysBeforeMonth(y, 13)
  {
    FoursStep(y);
    HundredsStep(y);
    FourHundredsStep(y);
    CenturiesAreMultiples(y);
    hide Fours, Hundreds, FourHundreds;
  }

  lemma MonthLength(y: nat, m: nat)
    requires 1 <= m <= 12
    ensures DaysBeforeMonth(y, m + 1) == DaysBeforeMonth(y, m) + DaysInMonth(y, m)
  {
  }

  /** The year at or after y that day number n falls in. */
  function YearOf(y: nat, n: nat): (r: nat)
    requires DaysBeforeYear(y) <= n
    ensures y <= r && DaysBeforeYear(r) <= n < DaysBeforeYear(r + 1)
    decreases n - DaysBeforeYear(y)
  {
    YearLength(y);
    if n < DaysBeforeYear(y + 1) then y else YearOf(y + 1, n)
  }

  /** The month at or after m that day k of year y falls in. */
  function MonthOf(y: nat, m: nat, k: nat): (r: nat)
    requires 1 <= m <= 12 && DaysBeforeMonth(y, m) <= k < DaysBeforeMonth(y, 13)
    ensures m <= r <= 12 && DaysBeforeMonth(y, r) <= k < DaysBeforeMonth(y, r + 1)
    decreases 12 - m
  {
    if k < DaysBeforeMonth(y, m + 1) then m else MonthOf(y, m + 1, k)
  }

  lemma DateIsValid(n: nat, y: nat, m: nat)
    requires 1 <= m <= 12
    requires DaysBeforeMonth(y, m) <= n - DaysBeforeYear(y) < DaysBeforeMonth(y, m + 1)
    ensures var d := n - DaysBeforeYear(y) - DaysBeforeMonth(y, m) + 1;
            d >= 1 && Date(y, m, d).Valid() && DayNumber(Date(y, m, d)) == n
  {
    MonthLength(y, m);
    hide DaysBeforeYear, DaysBeforeMonth, DaysInMonth;
  }

  lemma FirstYear()
    ensures DaysBeforeYear(0) == 0
  {
  }

  lemma FirstMonth(y: nat)
    ensures DaysBeforeMonth(y, 1) == 0
  {
    hide IsLeap;
  }

  /** The date of day number n. */
  function DateOf(n: nat): (d: Date)
    ensures d.Valid() && DayNumber(d) == n
  {
    hide DaysBeforeYear, DaysBeforeMonth, DayNumber;
    FirstYear();
    var y := YearOf(0, n);
    FirstMonth(y);
    YearLength(y);
    var m := MonthOf(y, 1, n - DaysBeforeYear(y));
    DateIsValid(n, y, m);
    Date(y, m, n - DaysBeforeYear(y) - DaysBeforeMonth(y, m) + 1)
  }

  lemma {:induction false} YearsIncrease(a: nat, b: nat)
    requires a <= b
    ensures DaysBeforeYear(a) <= DaysBeforeYear(b)
    decreases b - a
  {
    if a == b {
    } else {
      YearLength(a);
      YearsIncrease(a + 1, b);
    }
  }

  lemma {:induction false} MonthsIncrease(y: nat, a: nat, b: nat)
    requires 1 <= a <= b <= 13
    ensures DaysBeforeMonth(y, a) <= DaysBeforeMonth(y, b)
    decreases b - a
  {
    if a == b {
    } else {
      MonthsIncrease(y, a + 1, b);
    }
  }

  lemma YearIsUnique(a: nat, b: nat, n: nat)
    requires DaysBeforeYear(a) <= n < DaysBeforeYear(a + 1)
    requires DaysBeforeYear(b) <= n < DaysBeforeYear(b + 1)
    ensures a == b
  {
    YearsAreApart(a, b);
    YearsAreApart(b, a);
  }

  lemma YearsAreApart(a: nat, b: nat)
    ensures a < b ==> DaysBeforeYear(a + 1) <= DaysBeforeYear(b)
  {
    if a < b {
      YearsIncrease(a + 1, b);
    }
  }

  lemma MonthIsUnique(y: nat, a: nat, b: nat, k: nat)
    requires 1 <= a <= 12 && 1 <= b <= 12
    requires DaysBeforeMonth(y, a) <= k < DaysBeforeMonth(y, a + 1)
    requires DaysBeforeMonth(y, b) <= k < DaysBeforeMonth(y, b + 1)
    ensures a == b
  {
    MonthsAreApart(y, a, b);
    MonthsAreApart(y, b, a);
  }

  lemma MonthsAreApart(y: nat, a: nat, b: nat)
    requires 1 <= a <= 12 && 1 <= b <= 12
    ensures a < b ==> DaysBeforeMonth(y, a + 1) <= DaysBeforeMonth(y, b)
  {
    if a < b {
      MonthsIncrease(y, a + 1, b);
    }
  }

  /** A date lies inside its month, and its month inside its year. */
  lemma DateBounds(d: Date)
    requires d.Valid()
    ensures DaysBeforeYear(d.year) <= DayNumber(d) < DaysBeforeYear(d.year + 1)
    ensures DaysBeforeMonth(d.year, d.month) <= DayNumber(d) - DaysBeforeYear(d.year)
              < DaysBeforeMonth(d.year, d.month + 1)
  {
    YearLength(d.year);
    MonthLength(d.year, d.month);
    MonthsIncrease(d.year, d.month + 1, 13);
  }

  /** Two dates with the same day number are the same date. */
  lemma DayNumberInjective(d: Date, e: Date)
    requires d.Valid() && e.Valid() && DayNumber(d) == DayNumber(e)
    ensures d == e
  {
    hide DaysBeforeYear, DaysBeforeMonth, DaysInMonth;
    DateBounds(d);
    DateBounds(e);
    YearIsUnique(d.year, e.year, DayNumber(d));
    MonthIsUnique(d.year, d.month, e.month, DayNumber(d) - DaysBeforeYear(d.year));
  }

  /** DateOf is the inverse of DayNumber. */
  lemma DateRoundTrip(d: Date)
    requires d.Valid()
    ensures DateOf(DayNumber(d)) == d
  {
    DayNumberInjective(DateOf(DayNumber(d)), d);
  }

  lemma NextDayNumber(d: Date)
    requires d.Valid()
    ensures d.Next().Valid() && DayNumber(d.Next()) == DayNumber(d) + 1
  {
    YearLength(d.year);
    MonthLength(d.year, d.month);
  }

  /** DateOf is the calendar: one more day is the next date. */
  lemma DateOfCountsDays(n: nat)
    ensures DateOf(n + 1) == DateOf(n).Next()
  {
    var d := DateOf(n);
    NextDayNumber(d);
    DayNumberInjective(DateOf(n + 1), d.Next());
  }

  /** And it is anchored where Unix time starts. */
  lemma EpochDay()
    ensures DayNumber(Date(1970, 1, 1)) == 719_528
  {
  }

  /**
   Instants in years 0000 to 9999 (10000-01-01 is day 3652425), those that the layout's four year digits can write.
   */
  predicate InCalendar(t: Instant) {
    0 <= DayOf(t) < 3_652_425
  }

  type Moment = t: Instant | InCalendar(t)

  /** Day number of an instant; division rounds down, also before the epoch. */
  function DayOf(t: Instant): int {
    t / 86_400_000_000_000 + 719_528
  }

  /** Seconds since midnight. */
  function SecondOfDay(t: Instant): (r: nat)
    ensures r < 86_400
  {
    t / 1_000_000_000 % 86_400
  }

  /** The first instant of a second of a day. */
  function InstantOf(day: int, second: nat): Instant {
    (day - 719_528) * 86_400_000_000_000 + second * 1_000_000_000
  }

  function TruncateToSecond(t: Instant): Instant {
    t - t % 1_000_000_000
  }

  /** Splitting an instant into day and second loses exactly the fraction of the second. */
  lemma SplitInstant(t: Instant)
    ensures InstantOf(DayOf(t), SecondOfDay(t)) == TruncateToSecond(t)
  {
    var seconds := t / 1_000_000_000;
    assert t == seconds * 1_000_000_000 + t % 1_000_000_000;
    assert t / 86_400_000_000_000 == seconds / 86_400;
  }

  lemma JoinInstant(day: int, second: nat, nanos: nat)
    requires second < 86_400 && nanos < 1_000_000_000
    ensures DayOf(InstantOf(day, second) + nanos) == day && SecondOfDay(InstantOf(day, second) + nanos) == second
  {
    var t := InstantOf(day, second) + nanos;
    assert t / 1_000_000_000 == (day - 719_528) * 86_400 + second;
    assert t / 86_400_000_000_000 == day - 719_528;
  }

  lemma YearInRange(d: Date)
    requires d.Valid()
    ensures d.year < 10_000 <==> DayNumber(d) < 3_652_425
  {
    DateBounds(d);
    assert DaysBeforeYear(10_000) == 3_652_425;
    if d.year >= 10_000 {
      YearsIncrease(10_000, d.year);
    } else {
      YearsIncrease(d.year + 1, 10_000);
    }
  }

  function Tens(n: nat): char
    requires n < 100
  {
    DigitChar(n / 10)
  }

  function Ones(n: nat): char {
    DigitChar(n % 10)
  }

  /** The seven two-digit groups of the layout, the year being two of them. */
  datatype Groups = Groups(century: nat, year: nat, month: nat, day: nat, hour: nat, minute: nat, second: nat) {
    predicate Fits() {
      century < 100 && year < 100 && month < 100 && day < 100 && hour < 100 && minute < 100 && second < 100
    }
  }

  function Write(g: Groups): (s: string)
    requires g.Fits()
    ensures |s| == 20
  {
    [Tens(g.century), Ones(g.century), Tens(g.year), Ones(g.year), '-', Tens(g.month), Ones(g.month), '-',
     Tens(g.day), Ones(g.day), 'T', Tens(g.hour), Ones(g.hour), ':', Tens(g.minute), Ones(g.minute), ':',
     Tens(g.second), Ones(g.second), 'Z']
  }

  function Two(s: string, i: nat): (n: nat)
    requires i + 1 < |s|
    ensures n < 100
  {
    10 * DigitValue(s[i]) + DigitValue(s[i + 1])
  }

  /** The shape of the layout: its literal characters, and digits everywhere else. */
  predicate HasLayout(s: string) {
    |s| == 20
    && s[4] == '-' && s[7] == '-' && s[10] == 'T' && s[13] == ':' && s[16] == ':' && s[19] == 'Z'
    && IsDigit(s[0]) && IsDigit(s[1]) && IsDigit(s[2]) && IsDigit(s[3]) && IsDigit(s[5]) && IsDigit(s[6])
    && IsDigit(s[8]) && IsDigit(s[9]) && IsDigit(s[11]) && IsDigit(s[12])
    && IsDigit(s[14]) && IsDigit(s[15]) && IsDigit(s[17]) && IsDigit(s[18])
  }

  function Read(s: string): (g: Groups)
    requires HasLayout(s)
    ensures g.Fits()
  {
    Groups(Two(s, 0), Two(s, 2), Two(s, 5), Two(s, 8), Two(s, 11), Two(s, 14), Two(s, 17))
  }

  lemma TwoDigits(n: nat)
    requires n < 100
    ensures IsDigit(Tens(n)) && IsDigit(Ones(n))
    ensures 10 * DigitValue(Tens(n)) + DigitValue(Ones(n)) == n
  {
  }

  lemma DigitsOfTwo(a: char, b: char)
    requires IsDigit(a) && IsDigit(b)
    ensures var n := 10 * DigitValue(a) + DigitValue(b); n < 100 && Tens(n) == a && Ones(n) == b
  {
  }

  lemma ReadWrite(g: Groups)
    requires g.Fits()
    ensures HasLayout(Write(g)) && Read(Write(g)) == g
  {
    TwoDigits(g.century);
    TwoDigits(g.year);
    TwoDigits(g.month);
    TwoDigits(g.day);
    TwoDigits(g.hour);
    TwoDigits(g.minute);
    TwoDigits(g.second);
  }

  lemma WriteRead(s: string)
    requires HasLayout(s)
    ensures Write(Read(s)) == s
  {
    DigitsOfTwo(s[0], s[1]);
    DigitsOfTwo(s[2], s[3]);
    DigitsOfTwo(s[5], s[6]);
    DigitsOfTwo(s[8], s[9]);
    DigitsOfTwo(s[11], s[12]);
    DigitsOfTwo(s[14], s[15]);
    DigitsOfTwo(s[17], s[18]);
  }

  function GroupsOf(d: Date, second: nat): (g: Groups)
    requires d.Valid() && d.year < 10_000 && second < 86_400
    ensures g.Fits()
  {
    Groups(d.year / 100, d.year % 100, d.month, d.day, second / 3600, second / 60 % 60, second % 60)
  }

  function DateOfGroups(g: Groups): Date {
    Date(100 * g.century + g.year, g.month, g.day)
  }

  function SecondOfGroups(g: Groups): nat {
    3600 * g.hour + 60 * g.minute + g.second
  }

  /** Fields out of range and impossible days are errors to time.Parse. */
  predicate Sensible(g: Groups) {
    DateOfGroups(g).Valid() && g.hour < 24 && g.minute < 60 && g.second < 60
  }

  lemma GroupsRoundTrip(d: Date, second: nat)
    requires d.Valid() && d.year < 10_000 && second < 86_400
    ensures var g := GroupsOf(d, second); Sensible(g) && DateOfGroups(g) == d && SecondOfGroups(g) == second
  {
    assert second / 3600 == second / 60 / 60;
  }

  lemma SensibleRoundTrip(g: Groups)
    requires g.Fits() && Sensible(g)
    ensures DateOfGroups(g).year < 10_000 && SecondOfGroups(g) < 86_400
    ensures GroupsOf(DateOfGroups(g), SecondOfGroups(g)) == g
  {
    assert SecondOfGroups(g) / 60 == 60 * g.hour + g.minute;
  }

  /** time.Format of a UTC instant with the layout of pkg/operation/fetch/fetch.go. */
  function Format(t: Instant): (s: string)
    requires InCalendar(t)
  {
    YearInRange(DateOf(DayOf(t)));
    Write(GroupsOf(DateOf(DayOf(t)), SecondOfDay(t)))
  }

  /** time.Parse also reads an hour of one digit; this is the text with that hour written in two. */
  function Padded(s: string): string {
    if |s| > 12 && IsDigit(s[11]) && !IsDigit(s[12]) then s[..11] + "0" + s[11..] else s
  }

  /** The text in the exact layout, without the fraction of a second that time.Parse also reads. */
  function Canonical(s: string): string {
    var p := Padded(s);
    if |p| < 20 then p else p[..19] + "Z"
  }

  function Scaled(n: nat, places: int): nat
    decreases Max(0, places)
  {
    if places <= 0 then n else Scaled(10 * n, places - 1)
  }

  /**
   Nanoseconds named by what follows the seconds: nothing but the closing letter, or a point and digits before it.
   More than nine digits are not scaled, so they are read if they start with enough zeros.
   */
  function Fraction(tail: string): Option<nat> {
    if tail == "Z" then Some(0)
    else if |tail| < 3 || tail[0] != '.' || tail[|tail| - 1] != 'Z' || !AllDigits(tail[1..|tail| - 1]) then None
    else
      var digits := tail[1..|tail| - 1];
      if DecValue(digits) >= 1_000_000_000 then None else Some(Scaled(DecValue(digits), 9 - |digits|))
  }

  /** time.Parse with the same layout. */
  function Parse(s: string): Option<Instant> {
    if |Padded(s)| < 20 || !HasLayout(Canonical(s)) || !Sensible(Read(Canonical(s))) then None
    else
      match Fraction(Padded(s)[19..])
      case None => None
      case Some(nanos) =>
        var g := Read(Canonical(s));
        Some(InstantOf(DayNumber(DateOfGroups(g)), SecondOfGroups(g)) + nanos)
  }

  lemma CanonicalLayout(s: string)
    requires HasLayout(s)
    ensures Padded(s) == s && Canonical(s) == s && s[19..] == "Z"
  {
    assert s[..19] + "Z" == s;
  }

  /** Parsing the text written for an instant gives that instant, truncated to the second. */
  lemma ParseFormat(t: Instant)
    requires InCalendar(t)
    ensures Parse(Format(t)) == Some(TruncateToSecond(t))
  {
    hide DateOf, Padded, Canonical, HasLayout, Read, Write, DayNumber, DayOf, SecondOfDay, InstantOf, TruncateToSecond;
    hide GroupsOf, Sensible, DateOfGroups, SecondOfGroups;
    var d := DateOf(DayOf(t));
    YearInRange(d);
    ReadWrite(GroupsOf(d, SecondOfDay(t)));
    CanonicalLayout(Format(t));
    GroupsRoundTrip(d, SecondOfDay(t));
    SplitInstant(t);
  }

  /** Days begin every 86400 seconds, one of them at instant 0, which is the first of January 1970. */
  lemma EpochInstant(t: Instant)
    ensures DayOf(0) == DayNumber(Date(1970, 1, 1)) && SecondOfDay(0) == 0
    ensures 1_000_000_000 * (86_400 * (DayOf(t) - DayOf(0)) + SecondOfDay(t)) == TruncateToSecond(t)
  {
    EpochDay();
    SplitInstant(t);
  }

  /** The fields of the text are the date and the time of day. */
  lemma FormatFields(t: Instant) returns (g: Groups)
    requires InCalendar(t)
    ensures g.Fits() && Sensible(g) && Format(t) == Write(g)
    ensures DateOfGroups(g) == DateOf(DayOf(t)) && SecondOfGroups(g) == SecondOfDay(t)
  {
    hide DateOf, DayOf, SecondOfDay, Write;
    YearInRange(DateOf(DayOf(t)));
    g := GroupsOf(DateOf(DayOf(t)), SecondOfDay(t));
    GroupsRoundTrip(DateOf(DayOf(t)), SecondOfDay(t));
  }

  /** For example instant 0, and the first of February 1970 at 3 seconds after 01:02. */
  lemma FormatExamples()
    ensures InCalendar(0) && Format(0) == "1970-01-01T00:00:00Z"
    ensures InCalendar(2_682_123_000_000_000) && Format(2_682_123_000_000_000) == "1970-02-01T01:02:03Z"
  {
    ExampleDays();
    hide *;
    DateRoundTrip(Date(1970, 1, 1));
    var g := FormatFields(0);
    ExampleGroups(g);
    DateRoundTrip(Date(1970, 2, 1));
    var h := FormatFields(2_682_123_000_000_000);
    ExampleGroups(h);
    ExampleTexts();
  }

  lemma ExampleDays()
    ensures InCalendar(0) && Date(1970, 1, 1).Valid() && DayOf(0) == DayNumber(Date(1970, 1, 1)) && SecondOfDay(0) == 0
    ensures InCalendar(2_682_123_000_000_000) && Date(1970, 2, 1).Valid()
    ensures DayOf(2_682_123_000_000_000) == DayNumber(Date(1970, 2, 1)) && SecondOfDay(2_682_123_000_000_000) == 3723
  {
  }

  lemma ExampleGroups(g: Groups)
    requires g.Fits() && Sensible(g)
    ensures DateOfGroups(g) == Date(1970, 1, 1) && SecondOfGroups(g) == 0 ==> g == Groups(19, 70, 1, 1, 0, 0, 0)
    ensures DateOfGroups(g) == Date(1970, 2, 1) && SecondOfGroups(g) == 3723 ==> g == Groups(19, 70, 2, 1, 1, 2, 3)
  {
  }

  lemma ExampleTexts()
    ensures Groups(19, 70, 1, 1, 0, 0, 0).Fits() && Write(Groups(19, 70, 1, 1, 0, 0, 0)) == "1970-01-01T00:00:00Z"
    ensures Groups(19, 70, 2, 1, 1, 2, 3).Fits() && Write(Groups(19, 70, 2, 1, 1, 2, 3)) == "1970-02-01T01:02:03Z"
  {
  }

  lemma {:induction false} ScaledIsFraction(n: nat, places: nat)
    requires places <= 9 && n < Scaled(1, places)
    ensures Scaled(n, 9 - places) < 1_000_000_000
    decreases 9 - places
  {
    ScaledUp(1, places);
    if places == 9 {
      assert Scaled(1, 9) == 1_000_000_000;
    } else {
      ScaledIsFraction(10 * n, places + 1);
    }
  }

  lemma {:induction false} ScaledUp(n: nat, places: nat)
    ensures Scaled(n, places + 1) == 10 * Scaled(n, places)
    decreases places
  {
    if places == 0 {
      assert Scaled(10 * n, 0) == 10 * n;
    } else {
      ScaledUp(10 * n, places - 1);
    }
  }

  lemma {:induction false} DigitsAreBounded(s: string)
    ensures DecValue(s) < Scaled(1, |s|)
  {
    if s == [] {
    } else {
      DigitsAreBounded(s[..|s| - 1]);
      ScaledUp(1, |s| - 1);
    }
  }

  lemma FractionIsSmall(tail: string)
    requires Fraction(tail).Some?
    ensures Fraction(tail).value < 1_000_000_000
  {
    if tail != "Z" {
      var digits := tail[1..|tail| - 1];
      if |digits| <= 9 {
        DigitsAreBounded(digits);
        ScaledIsFraction(DecValue(digits), |digits|);
      }
    }
  }

  /**
   Conversely, the text written for the instant that a text names is that text in the exact layout:
   the hour in two digits and no fraction. So it is the text itself exactly when that has the layout.
   */
  lemma FormatParse(s: string)
    requires Parse(s).Some?
    ensures InCalendar(Parse(s).value) && Format(Parse(s).value) == Canonical(s)
    ensures Format(Parse(s).value) == s <==> HasLayout(s)
    ensures Parse(Canonical(s)) == Some(TruncateToSecond(Parse(s).value))
  {
    hide DateOf, Padded, Canonical, HasLayout, Read, Write, Fraction, DayNumber, DayOf, InstantOf, SecondOfDay;
    var text, t := Canonical(s), Parse(s).value;
    var g, nanos := Read(text), Fraction(Padded(s)[19..]).value;
    var day, second := DayNumber(DateOfGroups(g)), SecondOfGroups(g);
    FractionIsSmall(Padded(s)[19..]);
    WriteRead(text);
    SensibleRoundTrip(g);
    JoinInstant(day, second, nanos);
    DateRoundTrip(DateOfGroups(g));
    YearInRange(DateOfGroups(g));
    assert Format(t) == text;
    ParseFormat(t);
    if HasLayout(s) {
      CanonicalLayout(s);
    }
  }
}
