/** Day numbers and calendar dates, as in section 21.4.1 of ECMA-262: days count from 1 January 1970. */
module CivilDate {

  datatype Date = Date(year: int, month: int, day: int)

  predicate IsLeap(y: int) {
    y % 4 == 0 && (y % 100 != 0 || y % 400 == 0)
  }

  function DaysInYear(y: int): nat {
    if IsLeap(y) then 366 else 365
  }

  /** The day number of 1 January of year `y`. */
  function DayFromYear(y: int): int {
    365 * (y - 1970) + (y - 1969) / 4 - (y - 1901) / 100 + (y - 1601) / 400
  }

  function DaysInMonth(y: int, m: int): nat {
    if m == 2 then (if IsLeap(y) then 29 else 28)
    else if m in {4, 6, 9, 11} then 30
    else 31
  }

  /** The days of year `y` before its month `m`. */
  function DaysBefore(y: int, m: int): nat
    requires 1 <= m <= 13
  {
    if m == 1 then 0 else DaysBefore(y, m - 1) + DaysInMonth(y, m - 1)
  }

  /** The date exists in the Gregorian calendar. */
  predicate IsReal(d: Date) {
    1 <= d.month <= 12 && 1 <= d.day <= DaysInMonth(d.year, d.month)
  }

  function MakeDay(d: Date): int
    requires 1 <= d.month <= 12
  {
    DayFromYear(d.year) + DaysBefore(d.year, d.month) + d.day - 1
  }

  lemma YearsFollow(y: int)
    ensures DayFromYear(y + 1) == DayFromYear(y) + DaysInYear(y)
  {
    FloorStep(y - 1969, 4);
    FloorStep(y - 1901, 100);
    FloorStep(y - 1601, 400);
  }

  lemma FloorStep(x: int, k: int)
    requires k in {4, 100, 400}
    ensures (x + 1) / k == x / k + (if (x + 1) % k == 0 then 1 else 0)
  {
  }

  /** The last year that starts on or before the day, searched upwards from `y`. */
  function YearFrom(day: int, y: int): (r: int)
    requires DayFromYear(y) <= day
    ensures y <= r && DayFromYear(r) <= day < DayFromYear(r + 1)
    decreases day - DayFromYear(y)
  {
    YearsFollow(y);
    if DayFromYear(y + 1) <= day then YearFrom(day, y + 1) else y
  }

  function YearFromDay(day: int): (y: int)
    ensures DayFromYear(y) <= day < DayFromYear(y + 1)
  {
    YearFrom(day, if day >= 0 then 1970 else 1970 + day / 365)
  }

  /** The month that the day `d` of the year, counted from zero, falls in, searched upwards from `m`. */
  function MonthFrom(y: int, d: nat, m: int): (r: int)
    requires 1 <= m <= 12 && DaysBefore(y, m) <= d < DaysInYear(y)
    ensures m <= r <= 12 && DaysBefore(y, r) <= d < DaysBefore(y, r + 1)
    decreases 12 - m
  {
    YearIsFull(y);
    if d < DaysBefore(y, m + 1) then m else MonthFrom(y, d, m + 1)
  }

  lemma YearIsFull(y: int)
    ensures DaysBefore(y, 13) == DaysInYear(y)
  {
    assert DaysBefore(y, 2) == 31;
    assert DaysBefore(y, 3) == 31 + DaysInMonth(y, 2);
    assert DaysBefore(y, 5) == DaysBefore(y, 3) + 61;
    assert DaysBefore(y, 7) == DaysBefore(y, 5) + 61;
    assert DaysBefore(y, 9) == DaysBefore(y, 7) + 62;
    assert DaysBefore(y, 11) == DaysBefore(y, 9) + 61;
  }

  function Civil(day: int): Date {
    var y := YearFromDay(day);
    YearsFollow(y);
    var d := day - DayFromYear(y);
    var m := MonthFrom(y, d, 1);
    Date(y, m, d - DaysBefore(y, m) + 1)
  }

  lemma {:induction false} YearsOrdered(y: int, z: int)
    requires y <= z
    ensures DayFromYear(y) + (z - y) <= DayFromYear(z)
    decreases z - y
  {
    if y < z {
      YearsFollow(z - 1);
      YearsOrdered(y, z - 1);
    }
  }

  lemma {:induction false} MonthsOrdered(y: int, m: int, n: int)
    requires 1 <= m <= n <= 13
    ensures DaysBefore(y, m) <= DaysBefore(y, n)
    decreases n - m
  {
    if m < n { MonthsOrdered(y, m, n - 1); }
  }

  /** Every day number is that of one real date... */
  lemma MakeDayOfCivil(day: int)
    ensures IsReal(Civil(day)) && MakeDay(Civil(day)) == day
  {
  }

  predicate Earlier(a: Date, b: Date) {
    a.year < b.year || (a.year == b.year && (a.month < b.month || (a.month == b.month && a.day < b.day)))
  }

  lemma RealDateInYear(d: Date)
    requires IsReal(d)
    ensures DayFromYear(d.year) <= MakeDay(d) < DayFromYear(d.year + 1)
  {
    MonthsOrdered(d.year, d.month + 1, 13);
    YearIsFull(d.year);
    YearsFollow(d.year);
  }

  lemma EarlierIsLess(a: Date, b: Date)
    requires IsReal(a) && IsReal(b) && Earlier(a, b)
    ensures MakeDay(a) < MakeDay(b)
  {
    RealDateInYear(a);
    RealDateInYear(b);
    if a.year < b.year {
      YearsOrdered(a.year + 1, b.year);
    } else if a.month < b.month {
      MonthsOrdered(a.year, a.month + 1, b.month);
    }
  }

  /** The days of the calendar, month by month. */
  lemma RealIff(d: Date)
    ensures IsReal(d) <==>
            || (d.month in {1, 3, 5, 7, 8, 10, 12} && 1 <= d.day <= 31)
            || (d.month in {4, 6, 9, 11} && 1 <= d.day <= 30)
            || (d.month == 2 && 1 <= d.day <= 28)
            || (d.month == 2 && d.day == 29 && ((d.year % 4 == 0 && d.year % 100 != 0) || d.year % 400 == 0))
  {
    LeapIff(d.year);
  }

  lemma LeapIff(y: int)
    ensures IsLeap(y) <==> (y % 4 == 0 && y % 100 != 0) || y % 400 == 0
  {
    if y % 400 == 0 { assert y == 4 * (100 * (y / 400)); }
  }

  /** 1 January 1970 is day 0, and the calendar repeats every 146097 days, which are 400 years. */
  lemma Anchored(d: Date)
    requires 1 <= d.month <= 12
    ensures MakeDay(Date(1970, 1, 1)) == 0
    ensures MakeDay(d.(year := d.year + 400)) == MakeDay(d) + 146097
  {
    LeapRepeats(d.year);
    SameMonths(d.year, d.month);
    FourCenturies(d.year);
    assert DaysBefore(1970, 1) == 0;
  }

  lemma FourCenturies(y: int)
    ensures DayFromYear(y + 400) == DayFromYear(y) + 146097 && DayFromYear(1970) == 0
  {
    assert (y + 400 - 1969) / 4 == (y - 1969) / 4 + 100;
    assert (y + 400 - 1901) / 100 == (y - 1901) / 100 + 4;
    assert (y + 400 - 1601) / 400 == (y - 1601) / 400 + 1;
  }

  lemma LeapRepeats(y: int)
    ensures IsLeap(y + 400) == IsLeap(y)
  {
  }

  lemma {:induction false} SameMonths(y: int, m: int)
    requires 1 <= m <= 13 && IsLeap(y + 400) == IsLeap(y)
    ensures DaysBefore(y + 400, m) == DaysBefore(y, m)
  {
    if m > 1 { SameMonths(y, m - 1); }
  }

  /** The next day of the calendar: of the same month, or the first of the next, or 1 January. */
  function NextDate(d: Date): Date {
    if IsReal(d.(day := d.day + 1)) then d.(day := d.day + 1)
    else if d.month < 12 then Date(d.year, d.month + 1, 1)
    else Date(d.year + 1, 1, 1)
  }

  lemma NextIsReal(d: Date)
    requires IsReal(d)
    ensures IsReal(NextDate(d)) && (NextDate(d).day > 1 || d.day == DaysInMonth(d.year, d.month))
  {
  }

  /** Day numbers count the days of the calendar one by one. */
  lemma DaysFollow(d: Date)
    requires IsReal(d)
    ensures IsReal(NextDate(d)) && MakeDay(NextDate(d)) == MakeDay(d) + 1
  {
    NextIsReal(d);
    if d.month == 12 && d.day == 31 {
      YearIsFull(d.year);
      YearsFollow(d.year);
      assert DaysBefore(d.year, 13) == DaysBefore(d.year, 12) + 31;
      assert DaysBefore(d.year + 1, 1) == 0;
    }
  }

  /** The calendar order of real dates is the order of their day numbers. */
  lemma EarlierIff(a: Date, b: Date)
    requires IsReal(a) && IsReal(b)
    ensures Earlier(a, b) <==> MakeDay(a) < MakeDay(b)
  {
    if Earlier(a, b) {
      EarlierIsLess(a, b);
    } else if a != b {
      EarlierIsLess(b, a);
    }
  }

  /** ...and every real date is the one of its day number. */
  lemma CivilOfMakeDay(d: Date)
    requires IsReal(d)
    ensures Civil(MakeDay(d)) == d
  {
    MakeDayOfCivil(MakeDay(d));
    EarlierIff(Civil(MakeDay(d)), d);
    EarlierIff(d, Civil(MakeDay(d)));
  }
}
