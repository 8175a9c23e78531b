/**
 * Date arithmetic of backend/src/utils/dateUtils.js, plus the weekday-counting loop that
 * payrollService.calculateWorkingDays and leaveController.create/update each contain.
 *
 * A calendar date is a day number: day 0 is 0001-01-01 of the proleptic Gregorian calendar,
 * which was a Monday. A civil (year, month, day) record is used where the source takes a
 * date apart into its fields.
 */
module Dates {

  type Day = int

  /** Date.prototype.getDay: 0 is Sunday, 6 is Saturday. */
  function Weekday(d: Day): (w: nat)
    ensures w < 7
  {
    (d + 1) % 7
  }

  /** isWeekend: the day is a Sunday or a Saturday. */
  predicate IsWeekend(d: Day)
  {
    Weekday(d) == 0 || Weekday(d) == 6
  }

  lemma WeekdayShift(d: Day, k: int)
    ensures Weekday(d + k) == (Weekday(d) + k) % 7
  {
  }

  /** addDays: setDate(getDate() + days) moves the date by that many days. */
  function AddDays(d: Day, days: int): (r: Day)
    ensures DaysBetween(d, r) == if days < 0 then -days else days
    ensures Weekday(r) == (Weekday(d) + days) % 7
  {
    WeekdayShift(d, days);
    d + days
  }

  lemma AddDaysInverse(d: Day, n: int)
    ensures AddDays(d, 0) == d
    ensures AddDays(AddDays(d, n), -n) == d
  {
  }

  /** getDaysBetween: the absolute difference in whole days (no daylight-saving drift here). */
  function DaysBetween(start: Day, end: Day): (n: nat)
    ensures n == 0 <==> start == end
    ensures start <= end ==> end == start + n
    ensures end <= start ==> start == end + n
  {
    if end < start then start - end else end - start
  }

  lemma DaysBetweenSymmetric(a: Day, b: Day)
    ensures DaysBetween(a, b) == DaysBetween(b, a)
  {
  }

  /** getDateRange: every day from start to end inclusive, in increasing order. */
  method DateRange(start: Day, end: Day) returns (dates: seq<Day>)
    ensures |dates| == if start <= end then DaysBetween(start, end) + 1 else 0
    ensures forall i :: 0 <= i < |dates| ==> dates[i] == start + i
  {
    dates := [];
    var current := start;
    while current <= end
      invariant start <= current && (current <= end + 1 || current == start)
      invariant |dates| == current - start
      invariant forall i :: 0 <= i < |dates| ==> dates[i] == start + i
    {
      dates := dates + [current];
      current := current + 1;
    }
  }

  // ---------------------------------------------------------------- weekday counting

  /** The number of days in [start, end] that are neither Saturday nor Sunday. */
  function CountWeekdays(start: Day, end: Day): nat
    decreases end - start
  {
    if end < start then 0 else CountWeekdays(start, end - 1) + (if IsWeekend(end) then 0 else 1)
  }

  /**
   * The loop `for (date = start; date <= end; date++) if (!weekend) count++` that
   * calculateWorkingDays (payrollService.js) and create/update (leaveController.js) run.
   */
  method WeekdayCount(start: Day, end: Day) returns (count: nat)
    ensures count == CountWeekdays(start, end)
  {
    count := 0;
    var date := start;
    while date <= end
      invariant start <= date && (date <= end + 1 || date == start)
      invariant count == CountWeekdays(start, date - 1)
    {
      if !IsWeekend(date) {
        count := count + 1;
      }
      date := date + 1;
    }
  }

  lemma {:induction false} CountWeekdaysBound(start: Day, end: Day)
    ensures CountWeekdays(start, end) <= if end < start then 0 else end - start + 1
    decreases end - start
  {
    if end >= start {
      CountWeekdaysBound(start, end - 1);
    }
  }

  /** Counting over [start, end] is counting over [start, mid] and then over (mid, end]. */
  lemma {:induction false} CountWeekdaysSplit(start: Day, mid: Day, end: Day)
    requires start - 1 <= mid <= end
    ensures CountWeekdays(start, end) == CountWeekdays(start, mid) + CountWeekdays(mid + 1, end)
    decreases end - mid
  {
    if mid < end {
      CountWeekdaysSplit(start, mid, end - 1);
    }
  }

  /** Any seven consecutive days hold exactly five weekdays. */
  lemma WeekHasFiveWeekdays(start: Day)
    ensures CountWeekdays(start, start + 6) == 5
  {
    WeekdayShift(start, 1);
    WeekdayShift(start, 2);
    WeekdayShift(start, 3);
    WeekdayShift(start, 4);
    WeekdayShift(start, 5);
    WeekdayShift(start, 6);
    assert CountWeekdays(start, start - 1) == 0;
    assert CountWeekdays(start, start) == if IsWeekend(start) then 0 else 1;
    assert CountWeekdays(start, start + 1) == CountWeekdays(start, start) + (if IsWeekend(start + 1) then 0 else 1);
    assert CountWeekdays(start, start + 2) == CountWeekdays(start, start + 1) + (if IsWeekend(start + 2) then 0 else 1);
    assert CountWeekdays(start, start + 3) == CountWeekdays(start, start + 2) + (if IsWeekend(start + 3) then 0 else 1);
    assert CountWeekdays(start, start + 4) == CountWeekdays(start, start + 3) + (if IsWeekend(start + 4) then 0 else 1);
    assert CountWeekdays(start, start + 5) == CountWeekdays(start, start + 4) + (if IsWeekend(start + 5) then 0 else 1);
  }

  /** A period of whole weeks holds five weekdays per week. */
  lemma {:induction false} WholeWeeks(start: Day, weeks: nat)
    ensures CountWeekdays(start, start + 7 * weeks - 1) == 5 * weeks
    decreases weeks
  {
    if weeks > 0 {
      WholeWeeks(start, weeks - 1);
      CountWeekdaysSplit(start, start + 7 * (weeks - 1) - 1, start + 7 * weeks - 1);
      WeekHasFiveWeekdays(start + 7 * (weeks - 1));
    }
  }

  /**
   * A period has no weekday exactly when it is empty or lies inside one weekend: so a period
   * of three days or more always has one.
   */
  lemma NoWeekdayMeansWeekend(start: Day, end: Day)
    ensures CountWeekdays(start, end) == 0 <==>
      end < start || (end - start <= 1 && forall d :: start <= d <= end ==> IsWeekend(d))
  {
    if end >= start {
      if end - start >= 2 {
        // three consecutive days cannot all be Saturday or Sunday
        CountWeekdaysSplit(start, end - 3, end);
        WeekdayShift(end - 2, 1);
        WeekdayShift(end - 2, 2);
        assert CountWeekdays(end - 2, end - 3) == 0;
        assert CountWeekdays(end - 2, end - 2) == (if IsWeekend(end - 2) then 0 else 1);
        assert CountWeekdays(end - 2, end - 1) == CountWeekdays(end - 2, end - 2) + (if IsWeekend(end - 1) then 0 else 1);
        assert CountWeekdays(end - 2, end) ==
          (if IsWeekend(end - 2) then 0 else 1) + (if IsWeekend(end - 1) then 0 else 1) + (if IsWeekend(end) then 0 else 1);
      } else if end == start + 1 {
        assert CountWeekdays(start, end) == CountWeekdays(start, start) + (if IsWeekend(end) then 0 else 1);
      }
    }
  }

  // ---------------------------------------------------------------- civil calendar

  datatype Civil = Civil(year: int, month: int, day: int)

  predicate IsLeapYear(y: int)
  {
    y % 4 == 0 && (y % 100 != 0 || y % 400 == 0)
  }

  function DaysInMonth(y: int, m: int): (n: int)
    requires 1 <= m <= 12
    ensures 28 <= n <= 31
  {
    if m == 2 then (if IsLeapYear(y) then 29 else 28)
    else if m == 4 || m == 6 || m == 9 || m == 11 then 30
    else 31
  }

  function DaysInYear(y: int): int
  {
    if IsLeapYear(y) then 366 else 365
  }

  predicate ValidCivil(c: Civil)
  {
    c.year >= 1 && 1 <= c.month <= 12 && 1 <= c.day <= DaysInMonth(c.year, c.month)
  }

  function DaysBeforeYear(y: int): nat
    requires y >= 1
    decreases y
  {
    if y == 1 then 0 else DaysBeforeYear(y - 1) + DaysInYear(y - 1)
  }

  /** Days of year y before the first of month m; month 13 stands for the next January. */
  function DaysBeforeMonth(y: int, m: int): nat
    requires 1 <= m <= 13
    decreases m
  {
    if m == 1 then 0 else DaysBeforeMonth(y, m - 1) + DaysInMonth(y, m - 1)
  }

  /** The day number of a civil date. */
  function DayNumberOf(c: Civil): Day
    requires c.year >= 1 && 1 <= c.month <= 12
  {
    DaysBeforeYear(c.year) + DaysBeforeMonth(c.year, c.month) + c.day - 1
  }

  lemma YearIsTwelveMonths(y: int)
    ensures DaysBeforeMonth(y, 13) == DaysInYear(y)
  {
    assert DaysBeforeMonth(y, 3) == 31 + DaysInMonth(y, 2);
    assert DaysBeforeMonth(y, 7) == DaysBeforeMonth(y, 3) + 31 + 30 + 31 + 30;
    assert DaysBeforeMonth(y, 10) == DaysBeforeMonth(y, 7) + 31 + 31 + 30;
  }

  /** The closed form of the day count before a year: 365 per year plus the leap days. */
  lemma {:induction false} DaysBeforeYearClosedForm(y: int)
    requires y >= 1
    ensures DaysBeforeYear(y) == 365 * (y - 1) + (y - 1) / 4 - (y - 1) / 100 + (y - 1) / 400
    decreases y
  {
    if y > 1 {
      DaysBeforeYearClosedForm(y - 1);
      Div4Step(y - 1);
      Div100Step(y - 1);
      Div400Step(y - 1);
      LeapDays(y - 1);
    }
  }

  /** A leap year adds one day for each of 4 and 400 dividing it, less one for 100 dividing it. */
  lemma LeapDays(q: int)
    ensures DaysInYear(q) == 365 + (if q % 4 == 0 then 1 else 0) - (if q % 100 == 0 then 1 else 0)
                                 + (if q % 400 == 0 then 1 else 0)
  {
    if q % 100 == 0 {
      var k := q / 100;
      assert q == 4 * (25 * k);
    }
    if q % 400 == 0 {
      var k := q / 400;
      assert q == 100 * (4 * k);
    }
  }

  lemma Div4Step(q: int)
    ensures q / 4 == (q - 1) / 4 + (if q % 4 == 0 then 1 else 0)
  {
  }

  lemma Div100Step(q: int)
    ensures q / 100 == (q - 1) / 100 + (if q % 100 == 0 then 1 else 0)
  {
  }

  lemma Div400Step(q: int)
    ensures q / 400 == (q - 1) / 400 + (if q % 400 == 0 then 1 else 0)
  {
  }

  /** The weekday of New Year's Day: a year advances it by one, a leap year by two. */
  lemma NewYearWeekday(y: int)
    requires y >= 1
    ensures Weekday(DayNumberOf(Civil(y, 1, 1))) == (y + (y - 1) / 4 - (y - 1) / 100 + (y - 1) / 400) % 7
  {
    DaysBeforeYearClosedForm(y);
    var leap := (y - 1) / 4 - (y - 1) / 100 + (y - 1) / 400;
    assert DayNumberOf(Civil(y, 1, 1)) + 1 == 7 * (52 * (y - 1)) + (y + leap);
    ModSevenShift(52 * (y - 1), y + leap);
  }

  lemma ModSevenShift(k: int, m: int)
    ensures (7 * k + m) % 7 == m % 7
  {
  }

  /** The epoch is placed right: 2025-01-01 was a Wednesday. */
  lemma NewYear2025IsWednesday()
    ensures Weekday(DayNumberOf(Civil(2025, 1, 1))) == 3
  {
    NewYearWeekday(2025);
  }

  /** getStartOfMonth: new Date(year, month, 1). */
  function StartOfMonth(c: Civil): (r: Civil)
    requires ValidCivil(c)
    ensures ValidCivil(r) && r.year == c.year && r.month == c.month && r.day == 1
  {
    Civil(c.year, c.month, 1)
  }

  /** getEndOfMonth: new Date(year, month + 1, 0), the last day of the month. */
  function EndOfMonth(c: Civil): (r: Civil)
    requires ValidCivil(c)
    ensures ValidCivil(r) && r.year == c.year && r.month == c.month && r.day >= c.day
  {
    Civil(c.year, c.month, DaysInMonth(c.year, c.month))
  }

  /** Every date of a month lies between its start and its end. */
  lemma MonthBrackets(c: Civil)
    requires ValidCivil(c)
    ensures DayNumberOf(StartOfMonth(c)) <= DayNumberOf(c) <= DayNumberOf(EndOfMonth(c))
    ensures DayNumberOf(EndOfMonth(c)) - DayNumberOf(StartOfMonth(c)) + 1 == DaysInMonth(c.year, c.month)
  {
  }

  /** The first day of the month after c's, with December rolling over into the next year. */
  function FirstOfNextMonth(c: Civil): Civil
    requires ValidCivil(c)
  {
    if c.month == 12 then Civil(c.year + 1, 1, 1) else Civil(c.year, c.month + 1, 1)
  }

  /**
   * Day 0 of the next month is the day before that month's first: the end of the month is
   * exactly the day preceding FirstOfNextMonth, as JavaScript's date normalisation makes it.
   */
  lemma {:induction false} EndOfMonthPrecedesNextMonth(c: Civil)
    requires ValidCivil(c)
    ensures DayNumberOf(EndOfMonth(c)) + 1 == DayNumberOf(FirstOfNextMonth(c))
  {
    if c.month == 12 {
      YearIsTwelveMonths(c.year);
      assert DaysBeforeMonth(c.year, 13) == DaysBeforeMonth(c.year, 12) + 31;
    } else {
      assert DaysBeforeMonth(c.year, c.month + 1) == DaysBeforeMonth(c.year, c.month) + DaysInMonth(c.year, c.month);
    }
  }

  lemma EndOfFebruary()
    ensures EndOfMonth(Civil(2024, 2, 10)) == Civil(2024, 2, 29)
    ensures EndOfMonth(Civil(2023, 2, 10)) == Civil(2023, 2, 28)
    ensures EndOfMonth(Civil(1900, 2, 1)) == Civil(1900, 2, 28)
    ensures EndOfMonth(Civil(2000, 2, 1)) == Civil(2000, 2, 29)
  {
  }
}
