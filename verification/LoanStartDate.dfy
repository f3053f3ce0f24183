/**
 `resolveLoanStartDate`: which strings are taken as the start date of a loan.

 The date is parsed by the JavaScript engine.  For the formats the language defines the
 result is fixed; for every other string it is left to the engine, and what follows holds
 whatever an engine makes of them.
 */
module LoanStartDate {
  import opened Wrappers
  import opened DecimalText
  import opened CivilDate

  const MS_PER_DAY := 86400000

  /** A time value is a number of milliseconds within 100,000,000 days of the epoch. */
  type TimeValue = ms: int | -8640000000000000 <= ms <= 8640000000000000

  /** What an engine makes of a string outside the formats of the language, if anything. */
  type Engine = string -> Option<TimeValue>

  // ------------------------------------------------------------------------
  // Printing
  // ------------------------------------------------------------------------

  /** `n` in exactly `k` digits. */
  function Pad(k: nat, n: nat): (s: string)
    ensures |s| == k && IsNumeral(s)
  {
    if k == 0 then "" else Pad(k - 1, n / 10) + [DigitChar(n % 10)]
  }

  function PrintDate(d: Date): string
    requires 0 <= d.year && 0 <= d.month && 0 <= d.day
  {
    Pad(4, d.year) + "-" + Pad(2, d.month) + "-" + Pad(2, d.day)
  }

  function PrintMonth(d: Date): string
    requires 0 <= d.month
  {
    (if d.year < 0 then "-" + Pad(6, -d.year) else "+" + Pad(6, d.year)) + "-" + Pad(2, d.month)
  }

  /** The first ten characters of `toISOString`: years outside 0..9999 take a sign and six digits. */
  function IsoPrefix(day: int): string {
    MakeDayOfCivil(day);
    var d := Civil(day);
    if 0 <= d.year <= 9999 then PrintDate(d)
    else PrintMonth(d)
  }

  function DayOf(ms: int): int {
    ms / MS_PER_DAY
  }

  // ------------------------------------------------------------------------
  // Parsing
  // ------------------------------------------------------------------------

  /** The shape dddd-dd-dd. */
  predicate HasDateShape(s: string) {
    |s| == 10 && IsNumeral(s[..4]) && s[4] == '-' && IsNumeral(s[5..7]) && s[7] == '-' && IsNumeral(s[8..])
  }

  function ShapeDate(s: string): (d: Date)
    requires HasDateShape(s)
    ensures 0 <= d.year && 0 <= d.month && 0 <= d.day
  {
    Date(Value(s[..4]), Value(s[5..7]), Value(s[8..]))
  }

  /** The shape of an expanded year and a month: a sign, six digits, -dd. */
  predicate HasMonthShape(s: string) {
    |s| == 10 && s[0] in {'+', '-'} && IsNumeral(s[1..7]) && s[7] == '-' && IsNumeral(s[8..])
  }

  function ShapeMonth(s: string): Date
    requires HasMonthShape(s)
  {
    var y: int := Value(s[1..7]);
    Date(if s[0] == '+' then y else -y, Value(s[8..]), 1)
  }

  /** The date a ten-character string names in the language's own formats; minus zero is not a year. */
  function NamedDate(s: string): Option<Date> {
    if HasDateShape(s) && IsReal(ShapeDate(s)) then Some(ShapeDate(s))
    else if HasMonthShape(s) && IsReal(ShapeMonth(s)) && !(s[0] == '-' && ShapeMonth(s).year == 0) then Some(ShapeMonth(s))
    else None
  }

  function TimeClip(ms: int): Option<TimeValue> {
    if -8640000000000000 <= ms <= 8640000000000000 then Some(ms) else None
  }

  /** `new Date(input + "T00:00:00Z")`. */
  function Parse(engine: Engine, input: string): Option<TimeValue> {
    if NamedDate(input).Some? then TimeClip(MakeDay(NamedDate(input).value) * MS_PER_DAY) else engine(input)
  }

  /** The parse-then-print test. */
  predicate Survives(engine: Engine, input: string) {
    var parsed := Parse(engine, input);
    parsed.Some? && IsoPrefix(DayOf(parsed.value)) == input
  }

  // ------------------------------------------------------------------------
  // The function
  // ------------------------------------------------------------------------

  datatype DateError = NotADate | InTheFuture

  /** `a < b` on strings, character by character. */
  predicate Before(a: string, b: string) {
    if b == "" then false
    else if a == "" then true
    else a[0] < b[0] || (a[0] == b[0] && Before(a[1..], b[1..]))
  }

  const BOGOTA_OFFSET_MS := 5 * 3600000

  function TodayNumber(now: int): int {
    DayOf(now - BOGOTA_OFFSET_MS)
  }

  /** The day in Bogota, five hours behind UTC, as YYYY-MM-DD. */
  function BusinessToday(now: int): string
    requires 0 <= Civil(TodayNumber(now)).year
  {
    MakeDayOfCivil(TodayNumber(now));
    PrintDate(Civil(TodayNumber(now)))
  }

  function ResolveLoanStartDate(engine: Engine, input: Option<string>, now: int): Result<string, DateError>
    requires 0 <= Civil(TodayNumber(now)).year <= 9999
  {
    var today := BusinessToday(now);
    if input.None? || input.value == "" then Success(today)
    else if !Survives(engine, input.value) then Failure(NotADate)
    else if Before(today, input.value) then Failure(InTheFuture)
    else Success(input.value)
  }

  // ------------------------------------------------------------------------
  // Printing and reading digits undo each other
  // ------------------------------------------------------------------------

  lemma {:induction false} PadOfValue(s: string)
    requires IsNumeral(s)
    ensures Pad(|s|, Value(s)) == s
  {
    if s != [] {
      var rest, last := s[..|s| - 1], DigitValue(s[|s| - 1]);
      PadOfValue(rest);
      assert Value(s) / 10 == Value(rest) && Value(s) % 10 == last;
      assert s == rest + [s[|s| - 1]];
    }
  }

  lemma {:induction false} ValueOfPad(k: nat, n: nat)
    requires n < PowerOfTen(k)
    ensures Value(Pad(k, n)) == n
  {
    if k > 0 {
      ValueOfPad(k - 1, n / 10);
      var s := Pad(k, n);
      assert s[..k - 1] == Pad(k - 1, n / 10);
    }
  }

  lemma SmallPowers()
    ensures PowerOfTen(2) == 100 && PowerOfTen(4) == 1_0000 && PowerOfTen(6) == 100_0000
  {
  }

  lemma PrintShapeDate(s: string)
    requires HasDateShape(s)
    ensures PrintDate(ShapeDate(s)) == s && ShapeDate(s).year <= 9999
  {
    PadOfValue(s[..4]);
    PadOfValue(s[5..7]);
    PadOfValue(s[8..]);
    ValueBelow(s[..4]);
    SmallPowers();
    assert s == s[..4] + [s[4]] + s[5..7] + [s[7]] + s[8..];
  }

  lemma ShapeOfPrint(d: Date)
    requires 0 <= d.year <= 9999 && 0 <= d.month <= 99 && 0 <= d.day <= 99
    ensures HasDateShape(PrintDate(d)) && ShapeDate(PrintDate(d)) == d
  {
    var s := PrintDate(d);
    SmallPowers();
    assert s[..4] == Pad(4, d.year) && s[5..7] == Pad(2, d.month) && s[8..] == Pad(2, d.day);
    ValueOfPad(4, d.year);
    ValueOfPad(2, d.month);
    ValueOfPad(2, d.day);
  }

  lemma PrintShapeMonth(s: string)
    requires HasMonthShape(s) && !(s[0] == '-' && ShapeMonth(s).year == 0)
    ensures 0 <= ShapeMonth(s).month && PrintMonth(ShapeMonth(s)) == s
  {
    PadOfValue(s[1..7]);
    PadOfValue(s[8..]);
    assert s == [s[0]] + s[1..7] + [s[7]] + s[8..];
  }

  lemma ShapeOfPrintedMonth(d: Date)
    requires IsReal(d) && -100_0000 < d.year < 100_0000
    ensures HasMonthShape(PrintMonth(d)) && ShapeMonth(PrintMonth(d)) == d.(day := 1)
    ensures PrintMonth(d)[0] == '-' <==> d.year < 0
  {
    var s := PrintMonth(d);
    var y := if d.year < 0 then -d.year else d.year;
    SmallPowers();
    assert s[1..7] == Pad(6, y) && s[8..] == Pad(2, d.month);
    ValueOfPad(6, y);
    ValueOfPad(2, d.month);
  }

  // ------------------------------------------------------------------------
  // What the parse-then-print test accepts
  // ------------------------------------------------------------------------

  predicate IsRealDate(s: string) {
    HasDateShape(s) && IsReal(ShapeDate(s))
  }

  /** A month of a year beyond four digits, whose first day has a time value. */
  predicate IsFarMonth(s: string) {
    HasMonthShape(s) &&
    var d := ShapeMonth(s);
    IsReal(d) && !(0 <= d.year <= 9999) && TimeClip(MakeDay(d) * MS_PER_DAY).Some?
  }

  /** Midnight of a real date of four digits is a time value. */
  lemma FourDigitsHaveTime(d: Date)
    requires IsReal(d) && 0 <= d.year <= 9999
    ensures TimeClip(MakeDay(d) * MS_PER_DAY).Some?
  {
    YearsOrdered(0, d.year);
    YearsOrdered(d.year + 1, 10000);
    RealDateInYear(d);
  }

  /** The year of a time value has at most six digits. */
  lemma YearFits(t: TimeValue)
    ensures -100_0000 < Civil(DayOf(t)).year < 100_0000
  {
    var y := Civil(DayOf(t)).year;
    MakeDayOfCivil(DayOf(t));
    RealDateInYear(Civil(DayOf(t)));
    if y >= 100_0000 { YearsFromEpoch(y); }
    if y <= -100_0000 { YearsFromEpoch(y + 1); }
  }

  lemma YearsFromEpoch(y: int)
    ensures y >= 1970 ==> DayFromYear(y) >= 365 * (y - 1970)
    ensures y <= 1970 ==> DayFromYear(y) <= 365 * (y - 1970)
  {
  }

  lemma DayOfMidnight(day: int)
    ensures DayOf(day * MS_PER_DAY) == day
  {
  }

  /** What can be printed at all: real dates of four digits and months of the other years. */
  lemma PrintedShape(t: TimeValue)
    ensures var s := IsoPrefix(DayOf(t)); IsRealDate(s) || (NamedDate(s).Some? && HasMonthShape(s) && !(0 <= ShapeMonth(s).year <= 9999))
  {
    var d := Civil(DayOf(t));
    MakeDayOfCivil(DayOf(t));
    if 0 <= d.year <= 9999 {
      ShapeOfPrint(d);
    } else {
      YearFits(t);
      ShapeOfPrintedMonth(d);
      FirstIsReal(d);
    }
  }

  lemma FirstIsReal(d: Date)
    requires IsReal(d)
    ensures IsReal(d.(day := 1))
  {
  }

  lemma PrefixOfDate(d: Date)
    requires IsReal(d)
    ensures DayOf(MakeDay(d) * MS_PER_DAY) == MakeDay(d)
    ensures IsoPrefix(MakeDay(d)) == if 0 <= d.year <= 9999 then PrintDate(d) else PrintMonth(d)
  {
    CivilOfMakeDay(d);
    DayOfMidnight(MakeDay(d));
  }

  lemma RealDatesSurvive(engine: Engine, input: string)
    requires IsRealDate(input)
    ensures Survives(engine, input)
  {
    var d := ShapeDate(input);
    PrintShapeDate(input);
    FourDigitsHaveTime(d);
    PrefixOfDate(d);
  }

  lemma FarMonthsSurvive(engine: Engine, input: string)
    requires IsFarMonth(input)
    ensures Survives(engine, input)
  {
    var d := ShapeMonth(input);
    PrintShapeMonth(input);
    PrefixOfDate(d);
    assert NamedDate(input) == Some(d);
  }

  /**
   The test accepts exactly the real dates of four-digit years and, beyond what its message
   says, the months of the years that `toISOString` prints with a sign - whatever the engine
   makes of strings outside the formats of the language.
   */
  lemma AcceptedIff(engine: Engine, input: string)
    ensures Survives(engine, input) <==> IsRealDate(input) || IsFarMonth(input)
  {
    if IsRealDate(input) {
      RealDatesSurvive(engine, input);
    } else if IsFarMonth(input) {
      FarMonthsSurvive(engine, input);
    } else if Survives(engine, input) {
      PrintedShape(Parse(engine, input).value);
      assert false;
    }
  }

  /** Of the four, two and two digits of any year, month and day those of a real date are accepted. */
  lemma DigitsAcceptedIff(engine: Engine, d: Date)
    requires 0 <= d.year <= 9999 && 0 <= d.month <= 99 && 0 <= d.day <= 99
    ensures Survives(engine, PrintDate(d)) <==> IsReal(d)
  {
    var s := PrintDate(d);
    ShapeOfPrint(d);
    AcceptedIff(engine, s);
    assert s[..4][0] == s[0];
  }

  /** Such a month gets through: October of the year 12026. */
  lemma FarMonthAccepted(engine: Engine)
    ensures Survives(engine, "+012026-10")
  {
    var d := Date(12026, 10, 1);
    TenInTwo();
    assert PrintMonth(d) == "+012026-10";
    ShapeOfPrintedMonth(d);
    RealDateInYear(d);
    AcceptedIff(engine, PrintMonth(d));
  }

  lemma TenInTwo()
    ensures Pad(2, 10) == "10" && Pad(6, 12026) == "012026"
  {
    assert Pad(0, 0) == "" && Pad(1, 0) == "0" && Pad(2, 1) == "01" && Pad(3, 12) == "012" && Pad(4, 120) == "0120";
    assert Pad(5, 1202) == "01202" && Pad(1, 1) == "1";
  }

  // ------------------------------------------------------------------------
  // String order and calendar order
  // ------------------------------------------------------------------------

  lemma {:induction false} BeforeConcat(a: string, b: string, s: string, t: string)
    requires |a| == |b|
    ensures Before(a + s, b + t) <==> Before(a, b) || (a == b && Before(s, t))
  {
    if a == "" {
      assert a + s == s && b + t == t;
    } else {
      BeforeConcat(a[1..], b[1..], s, t);
      assert (a + s)[1..] == a[1..] + s && (b + t)[1..] == b[1..] + t;
      assert a == [a[0]] + a[1..] && b == [b[0]] + b[1..];
    }
  }

  lemma {:induction false} FirstDigit(s: string)
    requires s != "" && IsNumeral(s)
    ensures Value(s) == DigitValue(s[0]) * PowerOfTen(|s| - 1) + Value(s[1..])
  {
    if |s| == 1 {
      assert s[..0] == [];
    } else {
      var r := s[..|s| - 1];
      FirstDigit(r);
      assert s[1..][..|s| - 2] == r[1..];
      TenTimes(DigitValue(s[0]), PowerOfTen(|s| - 2));
    }
  }

  lemma TenTimes(d: nat, p: nat)
    ensures d * (10 * p) == 10 * (d * p)
  {
  }

  lemma {:induction false} NumeralOrder(a: string, b: string)
    requires |a| == |b| && IsNumeral(a) && IsNumeral(b)
    ensures Before(a, b) <==> Value(a) < Value(b)
    ensures a == b <==> Value(a) == Value(b)
  {
    if a != "" {
      FirstDigit(a);
      FirstDigit(b);
      NumeralOrder(a[1..], b[1..]);
      ValueBelow(a[1..]);
      ValueBelow(b[1..]);
      assert a == [a[0]] + a[1..] && b == [b[0]] + b[1..];
      var x, y, p := DigitValue(a[0]), DigitValue(b[0]), PowerOfTen(|a| - 1);
      if x < y { HigherDigit(x, y, p); }
      if y < x { HigherDigit(y, x, p); }
    }
  }

  lemma HigherDigit(x: nat, y: nat, p: nat)
    requires x < y
    ensures x * p + p <= y * p
  {
    assert y * p == x * p + p + (y - x - 1) * p;
  }

  /** On strings of the shape dddd-dd-dd, character order is the order of the calendar. */
  lemma StringOrderIsCalendarOrder(s: string, t: string)
    requires HasDateShape(s) && HasDateShape(t)
    ensures Before(s, t) <==> Earlier(ShapeDate(s), ShapeDate(t))
  {
    NumeralOrder(s[..4], t[..4]);
    NumeralOrder(s[5..7], t[5..7]);
    NumeralOrder(s[8..], t[8..]);
    assert s[4..5] == "-" == t[4..5] && s[7..8] == "-" == t[7..8];
    BeforeConcat(s[7..8], t[7..8], s[8..], t[8..]);
    assert s[7..] == s[7..8] + s[8..] && t[7..] == t[7..8] + t[8..];
    BeforeConcat(s[5..7], t[5..7], s[7..], t[7..]);
    assert s[5..] == s[5..7] + s[7..] && t[5..] == t[5..7] + t[7..];
    BeforeConcat(s[4..5], t[4..5], s[5..], t[5..]);
    assert s[4..] == s[4..5] + s[5..] && t[4..] == t[4..5] + t[5..];
    BeforeConcat(s[..4], t[..4], s[4..], t[4..]);
    assert s == s[..4] + s[4..] && t == t[..4] + t[4..];
    assert !Before("-", "-") by { assert "-"[1..] == ""; }
  }

  // ------------------------------------------------------------------------
  // What the function returns
  // ------------------------------------------------------------------------

  /** The input names a real day that is not after today in Bogota. */
  predicate NotAfterToday(input: string, now: int)
    requires IsRealDate(input)
  {
    MakeDay(ShapeDate(input)) <= TodayNumber(now)
  }

  /** The business day `d` lasts from 05:00 UTC of that day to 05:00 UTC of the next. */
  lemma BusinessDayIff(now: int, d: Date)
    requires IsReal(d) && 0 <= Civil(TodayNumber(now)).year
    ensures Civil(TodayNumber(now)) == d <==> 18000000 <= now - 86400000 * MakeDay(d) < 18000000 + 86400000
    ensures Civil(TodayNumber(now)) == d ==> BusinessToday(now) == PrintDate(d)
  {
    MakeDayOfCivil(TodayNumber(now));
    CivilOfMakeDay(d);
    FiveHoursBehind(now, MakeDay(d));
  }

  lemma FiveHoursBehind(now: int, day: int)
    ensures TodayNumber(now) == day <==> 18000000 <= now - 86400000 * day < 18000000 + 86400000
  {
  }

  lemma TodayIsReal(now: int)
    requires 0 <= Civil(TodayNumber(now)).year <= 9999
    ensures var today := BusinessToday(now); IsRealDate(today) && MakeDay(ShapeDate(today)) == TodayNumber(now)
  {
    MakeDayOfCivil(TodayNumber(now));
    ShapeOfPrint(Civil(TodayNumber(now)));
  }

  lemma FutureIff(input: string, now: int)
    requires IsRealDate(input) && 0 <= Civil(TodayNumber(now)).year <= 9999
    ensures Before(BusinessToday(now), input) <==> !NotAfterToday(input, now)
  {
    TodayIsReal(now);
    var today := BusinessToday(now);
    StringOrderIsCalendarOrder(today, input);
    EarlierIff(ShapeDate(today), ShapeDate(input));
  }

  /** A sign sorts before every digit, so no expanded month ever counts as the future. */
  lemma FarMonthsAreNeverFuture(input: string, now: int)
    requires HasMonthShape(input) && 0 <= Civil(TodayNumber(now)).year <= 9999
    ensures !Before(BusinessToday(now), input)
  {
    TodayIsReal(now);
    var today := BusinessToday(now);
    assert today[..4][0] == today[0];
    assert IsDigit(today[0]);
  }

  /** Every input, and exactly when each of the outcomes is returned. */
  lemma ResolveIff(engine: Engine, input: string, now: int)
    requires input != "" && 0 <= Civil(TodayNumber(now)).year <= 9999
    ensures var r := ResolveLoanStartDate(engine, Some(input), now);
            && (r == Success(input) <==> IsFarMonth(input) || (IsRealDate(input) && NotAfterToday(input, now)))
            && (r == Failure(InTheFuture) <==> IsRealDate(input) && !NotAfterToday(input, now))
            && (r == Failure(NotADate) <==> !IsFarMonth(input) && !IsRealDate(input))
  {
    AcceptedIff(engine, input);
    if IsRealDate(input) {
      FutureIff(input, now);
    } else if IsFarMonth(input) {
      FarMonthsAreNeverFuture(input, now);
    }
  }

  /** Behind the request's check for the shape dddd-dd-dd: exactly the real dates not after today. */
  lemma GuardedResolveIff(engine: Engine, input: string, now: int)
    requires HasDateShape(input) && 0 <= Civil(TodayNumber(now)).year <= 9999
    ensures ResolveLoanStartDate(engine, Some(input), now).Success? <==> IsReal(ShapeDate(input)) && NotAfterToday(input, now)
  {
    ResolveIff(engine, input, now);
    assert input[..4][0] == input[0];
  }

  /** No date at all means today, and today given back as a date is accepted. */
  lemma TodayIsAFixedPoint(engine: Engine, now: int)
    requires 0 <= Civil(TodayNumber(now)).year <= 9999
    ensures var r := ResolveLoanStartDate(engine, None, now);
            && r.Success? && IsRealDate(r.value) && MakeDay(ShapeDate(r.value)) == TodayNumber(now)
            && ResolveLoanStartDate(engine, Some(r.value), now) == r == ResolveLoanStartDate(engine, Some(""), now)
  {
    TodayIsReal(now);
    ResolveIff(engine, BusinessToday(now), now);
  }
}
