/** Dates as they are counted on: the date of tomorrow from the date of today, with its weekday. The
    calendar's arithmetic on day numbers is this counting. */
module CivilDates {
  import opened Calendar

  /** Weekday 0 is Sunday. */
  datatype Date = Date(year: int, month: int, day: int, weekday: int)

  /** Thirty days hath September, April, June and November; the rest have 31, save February. */
  function MonthLength(year: int, month: int): int {
    if month == 2 then (if year % 400 == 0 || (year % 4 == 0 && year % 100 != 0) then 29 else 28)
    else if month in {4, 6, 9, 11} then 30
    else 31
  }

  function Tomorrow(today: Date): Date {
    var weekday := if today.weekday == 6 then 0 else today.weekday + 1;
    if today.day < MonthLength(today.year, today.month) then
      Date(today.year, today.month, today.day + 1, weekday)
    else if today.month < 12 then Date(today.year, today.month + 1, 1, weekday)
    else Date(today.year + 1, 1, 1, weekday)
  }

  function DateOf(d: int): Date {
    Date(YearOf(d), MonthOf(d), DayOfMonth(d), WeekdayOf(d))
  }

  lemma MonthsAsLongAs(year: int, month: int)
    requires 1 <= month <= 12
    ensures DaysBeforeMonth(IsLeap(year), month + 1) - DaysBeforeMonth(IsLeap(year), month) == MonthLength(year, month)
  {
    HundredsAreFours(year);
    MultiplesOf400(year);
  }

  lemma DayIsInMonth(d: int)
    ensures 1 <= DayOfMonth(d) <= MonthLength(YearOf(d), MonthOf(d)) && 1 <= MonthOf(d) <= 12
  {
    DayInItsMonth(d);
    hide YearOf, MonthOf, DaysBeforeYear, DaysBeforeMonth;
    MonthsAsLongAs(YearOf(d), MonthOf(d));
  }

  /** A date that there is, is the date of its day. */
  lemma DateIsRead(y: int, m: int, day: int)
    requires 1 <= m <= 12 && 1 <= day <= MonthLength(y, m)
    ensures var d := DayNumber(y, m, day); YearOf(d) == y && MonthOf(d) == m && DayOfMonth(d) == day
  {
    MonthsAsLongAs(y, m);
    hide IsLeap, YearOf, MonthOf, DayOfMonth, DaysBeforeMonth, DayNumber;
    DateOfDayNumber(y, m, day);
  }

  lemma NewYear(y: int)
    ensures DayNumber(y, 13, 1) == DayNumber(y + 1, 1, 1)
  {
  }

  lemma DayAfter(y: int, m: int, day: int)
    ensures DayNumber(y, m, day + 1) == DayNumber(y, m, day) + 1
  {
    hide IsLeap, DaysBeforeYear, DaysBeforeMonth;
  }

  lemma MonthEnds(y: int, m: int)
    requires 1 <= m <= 12
    ensures DayNumber(y, m + 1, 1) == DayNumber(y, m, MonthLength(y, m)) + 1
  {
    hide IsLeap, DaysBeforeYear;
    MonthsAsLongAs(y, m);
    NextMonthStart(y, m);
    assert (m - 1) / 12 == 0 && (m - 1) % 12 + 1 == m;
  }

  /** The next day's weekday is the next weekday. */
  lemma NextWeekday(d: int)
    ensures 0 <= WeekdayOf(d) <= 6
    ensures WeekdayOf(d + 1) == if WeekdayOf(d) == 6 then 0 else WeekdayOf(d) + 1
  {
  }

  /** Day 0 is Monday, 1 January of year 1, and every day's date is followed by the date of the next day. */
  lemma CountingDays(d: int)
    ensures DateOf(0) == Date(1, 1, 1, 1)
    ensures DateOf(d + 1) == Tomorrow(DateOf(d))
  {
    DayZero();
    hide YearOf, MonthOf, DayOfMonth, DayNumber, WeekdayOf, MonthLength;
    var y, m, day := YearOf(d), MonthOf(d), DayOfMonth(d);
    NextWeekday(d);
    DayNumberOfDate(d);
    DayIsInMonth(d);
    if day < MonthLength(y, m) {
      DayAfter(y, m, day);
      DateIsRead(y, m, day + 1);
    } else {
      MonthEnds(y, m);
      FirstIsInMonth(y, m);
      if m == 12 {
        NewYear(y);
        DateIsRead(y + 1, 1, 1);
      } else {
        DateIsRead(y, m + 1, 1);
      }
    }
  }

  lemma FirstIsInMonth(y: int, m: int)
    ensures 1 <= MonthLength(y, m + 1) && 1 <= MonthLength(y + 1, 1)
  {
  }

  lemma DayZero()
    ensures DateOf(0) == Date(1, 1, 1, 1)
  {
    hide YearOf, MonthOf, DayOfMonth, DayNumber;
    DateIsRead(1, 1, 1);
    FirstDayNumber();
  }

  lemma FirstDayNumber()
    ensures DayNumber(1, 1, 1) == 0
  {
  }

  /** The first day of Unix time was a Thursday. */
  lemma UnixEpoch()
    ensures DateOf(719162) == Date(1970, 1, 1, 4)
  {
    hide YearOf, MonthOf, DayOfMonth, DayNumber;
    DateIsRead(1970, 1, 1);
    EpochDayNumber();
  }

  lemma EpochDayNumber()
    ensures DayNumber(1970, 1, 1) == 719162
  {
  }
}
