/** The proleptic Gregorian calendar, as far as Go's `time.Date` needs it.

    A date is a day number: day 0 is 1 January of year 0. A month is a month
    number: 12 * year + (month - 1). Both range over all integers, so there
    is no first or last representable date. */
module Calendar {

  predicate IsLeap(year: int) {
    year % 4 == 0 && (year % 100 != 0 || year % 400 == 0)
  }

  /** Days between 1 January of year 0 and 1 January of `year`. */
  function DaysBeforeYear(year: int): int {
    365 * year + (year + 3) / 4 - (year + 99) / 100 + (year + 399) / 400
  }

  function DaysInMonth(month: int): (days: int)
    ensures 28 <= days <= 31
  {
    var m := month % 12;
    if m == 1 then (if IsLeap(month / 12) then 29 else 28)
    else if m == 3 || m == 5 || m == 8 || m == 10 then 30
    else 31
  }

  /** Days between 1 January and the first of month `m` (0 is January). */
  function DaysBeforeMonth(m: int, leap: bool): int
    requires 0 <= m < 12
  {
    var leapDay := if leap && m >= 2 then 1 else 0;
    [0, 31, 59, 90, 120, 151, 181, 212, 243, 273, 304, 334][m] + leapDay
  }

  /** The day number of the first day of a month. */
  function MonthStart(month: int): int {
    DaysBeforeYear(month / 12) + DaysBeforeMonth(month % 12, IsLeap(month / 12))
  }

  lemma FourthYear(year: int)
    ensures (year + 4) / 4 == (year + 3) / 4 + (if year % 4 == 0 then 1 else 0)
  {
  }

  lemma HundredthYear(year: int)
    ensures (year + 100) / 100 == (year + 99) / 100 + (if year % 100 == 0 then 1 else 0)
  {
  }

  lemma FourHundredthYear(year: int)
    ensures (year + 400) / 400 == (year + 399) / 400 + (if year % 400 == 0 then 1 else 0)
  {
  }

  lemma CenturyIsFourth(year: int)
    ensures year % 100 == 0 ==> year % 4 == 0
    ensures year % 400 == 0 ==> year % 100 == 0
  {
    if year % 100 == 0 {
      assert year == 4 * (25 * (year / 100));
    }
    if year % 400 == 0 {
      assert year == 100 * (4 * (year / 400));
    }
  }

  lemma YearLength(year: int)
    ensures DaysBeforeYear(year + 1) == DaysBeforeYear(year) + (if IsLeap(year) then 366 else 365)
  {
    FourthYear(year);
    HundredthYear(year);
    FourHundredthYear(year);
    CenturyIsFourth(year);
  }

  /** Consecutive months tile the days. */
  lemma MonthLength(month: int)
    ensures MonthStart(month + 1) == MonthStart(month) + DaysInMonth(month)
    ensures MonthStart(month) + 28 <= MonthStart(month + 1)
  {
    var year, m := month / 12, month % 12;
    assert month == 12 * year + m;
    if m == 11 {
      assert (month + 1) / 12 == year + 1 && (month + 1) % 12 == 0;
      YearLength(year);
    } else {
      assert (month + 1) / 12 == year && (month + 1) % 12 == m + 1;
    }
  }

  lemma {:induction false} MonthStartGrows(a: int, b: int)
    requires a <= b
    ensures MonthStart(a) + 28 * (b - a) <= MonthStart(b)
    decreases b - a
  {
    if a == b {
    } else {
      MonthLength(a);
      MonthStartGrows(a + 1, b);
    }
  }

  function MonthFrom(day: int, month: int): (r: int)
    requires MonthStart(month) <= day
    ensures MonthStart(r) <= day < MonthStart(r + 1)
    decreases day - MonthStart(month)
  {
    hide MonthStart, DaysInMonth;
    MonthLength(month);
    if day < MonthStart(month + 1) then month else MonthFrom(day, month + 1)
  }

  lemma MonthZero()
    ensures MonthStart(0) == 0
  {
  }

  /** The month a day falls in. */
  function MonthOf(day: int): (month: int)
    ensures MonthStart(month) <= day < MonthStart(month + 1)
  {
    hide MonthStart;
    MonthZero();
    if day >= 0 then MonthFrom(day, 0)
    else
      MonthStartGrows(day, 0);
      MonthFrom(day, day)
  }

  /** The day of the month, counted from 1. */
  function DayOfMonth(day: int): (d: int)
    ensures 1 <= d <= DaysInMonth(MonthOf(day))
  {
    hide MonthStart, DaysInMonth;
    MonthLength(MonthOf(day));
    day - MonthStart(MonthOf(day)) + 1
  }

  function YearOf(day: int): int { MonthOf(day) / 12 }

  /** The calendar month, 1 to 12. */
  function MonthOfYear(day: int): (m: int)
    ensures 1 <= m <= 12
  {
    MonthOf(day) % 12 + 1
  }

  /** Go's `time.Date` on a date: months and days outside their usual ranges
      are normalised, so day 0 is the last day of the month before. */
  function Date(year: int, month: int, day: int): int {
    MonthStart(12 * year + month - 1) + day - 1
  }

  lemma MonthOfUnique(day: int, month: int)
    requires MonthStart(month) <= day < MonthStart(month + 1)
    ensures MonthOf(day) == month
  {
    hide MonthStart;
    var m := MonthOf(day);
    if m < month {
      MonthStartGrows(m + 1, month);
    } else if month < m {
      MonthStartGrows(month + 1, m);
    }
  }

  /** Building a date from a month and a day inside it, and taking it apart
      again, are inverse. */
  lemma DateRoundTrip(year: int, month: int, day: int)
    requires 1 <= month <= 12
    requires 1 <= day <= DaysInMonth(12 * year + month - 1)
    ensures MonthOf(Date(year, month, day)) == 12 * year + month - 1
    ensures YearOf(Date(year, month, day)) == year
    ensures MonthOfYear(Date(year, month, day)) == month
    ensures DayOfMonth(Date(year, month, day)) == day
  {
    hide MonthStart, DaysInMonth;
    var m := 12 * year + month - 1;
    MonthLength(m);
    MonthOfUnique(Date(year, month, day), m);
  }

  lemma DateOfParts(day: int)
    ensures Date(YearOf(day), MonthOfYear(day), DayOfMonth(day)) == day
  {
    hide MonthStart, DaysInMonth;
  }

  /** The zero of Unix time, as a fixed point of reference. */
  lemma UnixEpoch()
    ensures Date(1970, 1, 1) == 719528
  {
  }

  /** addMonthsClamped on dates: whole calendar months forward, with the last
      day of the target month standing in for a day it does not have. */
  function AddMonthsClamped(day: int, months: int): int {
    var target := Date(YearOf(day), MonthOfYear(day) + months, 1);
    var lastDay := DayOfMonth(Date(YearOf(target), MonthOfYear(target) + 1, 0));
    var d := if DayOfMonth(day) > lastDay then lastDay else DayOfMonth(day);
    Date(YearOf(target), MonthOfYear(target), d)
  }

  function Min(a: int, b: int): int { if a <= b then a else b }

  /** AddMonthsClamped lands exactly `months` months later, on the same day of
      the month or on that month's last day, for any number of months. */
  lemma AddMonthsLands(day: int, months: int)
    ensures MonthOf(AddMonthsClamped(day, months)) == MonthOf(day) + months
    ensures DayOfMonth(AddMonthsClamped(day, months))
         == Min(DayOfMonth(day), DaysInMonth(MonthOf(day) + months))
  {
    hide MonthStart, DaysInMonth;
    var m := MonthOf(day) + months;
    var target := Date(YearOf(day), MonthOfYear(day) + months, 1);
    assert target == MonthStart(m);
    MonthLength(m);
    MonthOfUnique(target, m);
    var last := Date(YearOf(target), MonthOfYear(target) + 1, 0);
    assert last == MonthStart(m + 1) - 1;
    MonthOfUnique(last, m);
    assert DayOfMonth(last) == DaysInMonth(m);
    MonthOfUnique(AddMonthsClamped(day, months), m);
  }

  /** Later dates never land earlier. */
  lemma AddMonthsMonotone(a: int, b: int, months: int)
    requires a <= b
    ensures AddMonthsClamped(a, months) <= AddMonthsClamped(b, months)
  {
    hide MonthStart, DaysInMonth, AddMonthsClamped;
    AddMonthsLands(a, months);
    AddMonthsLands(b, months);
    var ma, mb := MonthOf(a), MonthOf(b);
    if mb < ma {
      MonthStartGrows(mb + 1, ma);
    } else if ma < mb {
      MonthStartGrows(ma + months + 1, mb + months);
    }
  }

  /** Stepping in two moves reaches the month of the single move, but the
      intermediate month's length can shorten the day: the two moves agree
      exactly when the first one did not clamp below the final day. */
  lemma AddMonthsTwice(day: int, first: int, second: int)
    ensures AddMonthsClamped(AddMonthsClamped(day, first), second) <= AddMonthsClamped(day, first + second)
    ensures AddMonthsClamped(AddMonthsClamped(day, first), second) == AddMonthsClamped(day, first + second)
       <==> Min(DayOfMonth(day), DaysInMonth(MonthOf(day) + first + second)) <= DaysInMonth(MonthOf(day) + first)
  {
    hide MonthStart, DaysInMonth, AddMonthsClamped;
    AddMonthsLands(day, first);
    AddMonthsLands(AddMonthsClamped(day, first), second);
    AddMonthsLands(day, first + second);
  }

  lemma FirstQuarter(year: int)
    ensures DaysInMonth(12 * year) == 31
    ensures DaysInMonth(12 * year + 1) == (if IsLeap(year) then 29 else 28)
    ensures DaysInMonth(12 * year + 2) == 31
  {
    hide IsLeap;
    assert (12 * year) / 12 == year && (12 * year) % 12 == 0;
    assert (12 * year + 1) / 12 == year && (12 * year + 1) % 12 == 1;
    assert (12 * year + 2) % 12 == 2;
  }

  /** A month forward from 31 January is the last day of February, and a
      second month forward does not find its way back to the 31st. */
  lemma EndOfJanuary(year: int)
    ensures AddMonthsClamped(Date(year, 1, 31), 1) == Date(year, 2, if IsLeap(year) then 29 else 28)
    ensures AddMonthsClamped(AddMonthsClamped(Date(year, 1, 31), 1), 1) < AddMonthsClamped(Date(year, 1, 31), 2)
  {
    hide MonthStart, DaysInMonth, AddMonthsClamped, DayOfMonth, IsLeap, Date;
    FirstQuarter(year);
    var day := Date(year, 1, 31);
    DateRoundTrip(year, 1, 31);
    AddMonthsLands(day, 1);
    DateOfParts(AddMonthsClamped(day, 1));
    AddMonthsLands(day, 2);
    AddMonthsTwice(day, 1, 1);
  }
}
