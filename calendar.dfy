/**
 * The slice of JavaScript's `Date` the analytics window needs, on the
 * proleptic Gregorian calendar: calendar dates, the normalising constructor
 * `new Date(year, monthIndex, day)` and instants ordered by date and then by
 * time of day. Time zones are not modelled: every date is read as UTC.
 */
module Calendar {

  const MillisPerDay := 86_400_000

  predicate IsLeapYear(year: int) {
    year % 4 == 0 && (year % 100 != 0 || year % 400 == 0)
  }

  function DaysInMonth(year: int, month: int): (n: int)
    requires 1 <= month <= 12
    ensures 28 <= n <= 31
    ensures n == 29 <==> month == 2 && IsLeapYear(year)
  {
    if month == 2 then (if IsLeapYear(year) then 29 else 28)
    else if month == 4 || month == 6 || month == 9 || month == 11 then 30
    else 31
  }

  /** A calendar day; `month` runs from 1 (January) to 12. */
  datatype Date = Date(year: int, month: int, day: int) {
    ghost predicate Valid() {
      1 <= month <= 12 && 1 <= day <= DaysInMonth(year, month)
    }

    /** Months since January of year 0: consecutive months differ by one. */
    function MonthIndex(): int {
      year * 12 + month - 1
    }

    /** A number that orders dates as the calendar does. */
    function Ordinal(): int {
      MonthIndex() * 32 + day
    }
  }

  /** Two valid dates are in the same calendar month exactly when their month indexes agree. */
  lemma MonthIndexInjective(a: Date, b: Date)
    requires 1 <= a.month <= 12 && 1 <= b.month <= 12
    ensures a.MonthIndex() == b.MonthIndex() <==> a.year == b.year && a.month == b.month
  {
  }

  /** The ordinal of a valid date lies inside the block of 32 numbers of its month. */
  lemma OrdinalInMonthBlock(d: Date)
    requires d.Valid()
    ensures d.MonthIndex() * 32 < d.Ordinal() < d.MonthIndex() * 32 + 32
  {
  }

  /** Valid dates are ordered by their ordinals, and equal ordinals mean the same date. */
  lemma OrdinalOrder(a: Date, b: Date)
    requires a.Valid() && b.Valid()
    ensures a.MonthIndex() < b.MonthIndex() ==> a.Ordinal() < b.Ordinal()
    ensures a.Ordinal() == b.Ordinal() ==> a == b
  {
    OrdinalInMonthBlock(a);
    OrdinalInMonthBlock(b);
    if a.Ordinal() == b.Ordinal() {
      assert a.MonthIndex() == b.MonthIndex();
      MonthIndexInjective(a, b);
    }
  }

  /** The month before `(year, month)`. */
  function PreviousMonth(year: int, month: int): (ym: (int, int))
    requires 1 <= month <= 12
    ensures 1 <= ym.1 <= 12
    ensures ym.0 * 12 + ym.1 == year * 12 + month - 1
  {
    if month == 1 then (year - 1, 12) else (year, month - 1)
  }

  /** The month after `(year, month)`. */
  function NextMonth(year: int, month: int): (ym: (int, int))
    requires 1 <= month <= 12
    ensures 1 <= ym.1 <= 12
    ensures ym.0 * 12 + ym.1 == year * 12 + month + 1
  {
    if month == 12 then (year + 1, 1) else (year, month + 1)
  }

  /**
   * `new Date(year, monthIndex, day)`: the month index may be any integer
   * (it carries into the year) and a day outside the month rolls into the
   * neighbouring month. Days from -27 to 31 cover every use in the app:
   * seven days back from a day of month, a preserved day of month, day 1
   * and day 0.
   */
  function NewDate(year: int, monthIndex: int, day: int): (d: Date)
    requires -27 <= day <= 31
    ensures d.Valid()
  {
    var y := year + monthIndex / 12;
    var m := monthIndex % 12 + 1;
    if day < 1 then
      var (py, pm) := PreviousMonth(y, m);
      Date(py, pm, DaysInMonth(py, pm) + day)
    else if day <= DaysInMonth(y, m) then
      Date(y, m, day)
    else
      var (ny, nm) := NextMonth(y, m);
      Date(ny, nm, day - DaysInMonth(y, m))
  }

  /** Day 1 of a month index is the first day of exactly that month. */
  lemma NewDateFirstDay(year: int, monthIndex: int)
    ensures NewDate(year, monthIndex, 1).day == 1
    ensures NewDate(year, monthIndex, 1).MonthIndex() == year * 12 + monthIndex
  {
  }

  /** Day 0 of month `monthIndex` is the last day of the month before it. */
  lemma NewDateDayZero(year: int, monthIndex: int)
    ensures var d := NewDate(year, monthIndex, 0);
      d.MonthIndex() == year * 12 + monthIndex - 1 && d.day == DaysInMonth(d.year, d.month)
  {
  }

  /**
   * Where `new Date(year, monthIndex, day)` lands, with `n` the length of
   * the month `monthIndex` names: a day below 1 counts back from the end of
   * the previous month, a day the month has stays put, and a day past the
   * month's end counts on into the next month, at most three days in.
   */
  lemma NewDateLanding(year: int, monthIndex: int, day: int)
    requires -27 <= day <= 31
    ensures var d := NewDate(year, monthIndex, day);
      var n := DaysInMonth(year + monthIndex / 12, monthIndex % 12 + 1);
      (day < 1 ==> d.MonthIndex() == year * 12 + monthIndex - 1 && d.day == DaysInMonth(d.year, d.month) + day)
      && (1 <= day <= n ==> d.MonthIndex() == year * 12 + monthIndex && d.day == day)
      && (day > n ==> d.MonthIndex() == year * 12 + monthIndex + 1 && d.day == day - n && d.day <= 3)
  {
  }

  /**
   * `new Date(year, monthIndex, day)` as the constructor is called with a
   * full year: years 0 to 99 are read as 1900 to 1999.
   */
  function DateFromParts(year: int, monthIndex: int, day: int): (d: Date)
    requires -27 <= day <= 31
    ensures d.Valid()
    ensures year >= 100 ==> d == NewDate(year, monthIndex, day)
  {
    NewDate(if 0 <= year <= 99 then 1900 + year else year, monthIndex, day)
  }

  /** A point in time: a date and the milliseconds elapsed since its midnight. */
  datatype Instant = Instant(date: Date, millis: int) {
    ghost predicate Valid() {
      date.Valid() && 0 <= millis < MillisPerDay
    }
  }

  /** `a <= b` on two JavaScript dates. */
  predicate AtOrBefore(a: Instant, b: Instant) {
    a.date.Ordinal() < b.date.Ordinal()
    || (a.date.Ordinal() == b.date.Ordinal() && a.millis <= b.millis)
  }

  /** The instant a stored `YYYY-MM-DD` string denotes: midnight of that day. */
  function Midnight(d: Date): Instant {
    Instant(d, 0)
  }
}
