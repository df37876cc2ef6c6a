/** The proleptic Gregorian calendar of section 3.2.1 of ISO 8601:2004, in UTC.
    A day is an integer: day 0 is 1 January of year 1, a Monday. A minute is an
    integer too: minute 0 is the first minute of day 0. Earlier days and minutes
    are negative, which Dafny's flooring division handles. */
module Calendar {

  const MINUTES_PER_DAY := 1440
  const DAYS_PER_400_YEARS := 146097

  predicate IsLeap(y: int) {
    y % 4 == 0 && (y % 100 != 0 || y % 400 == 0)
  }

  function DaysBeforeYear(y: int): int {
    365 * (y - 1) + (y - 1) / 4 - (y - 1) / 100 + (y - 1) / 400
  }

  function DaysInYear(y: int): int {
    if IsLeap(y) then 366 else 365
  }

  /** Days of the year before month m; m == 13 is the length of the year. */
  function DaysBeforeMonth(leap: bool, m: int): int
    requires 1 <= m <= 13
  {
    var l := if leap then 1 else 0;
    if m == 1 then 0
    else if m == 2 then 31
    else if m == 3 then 59 + l
    else if m == 4 then 90 + l
    else if m == 5 then 120 + l
    else if m == 6 then 151 + l
    else if m == 7 then 181 + l
    else if m == 8 then 212 + l
    else if m == 9 then 243 + l
    else if m == 10 then 273 + l
    else if m == 11 then 304 + l
    else if m == 12 then 334 + l
    else 365 + l
  }

  // ----- Reading a date off a day number -----

  /** The year holding day d, by 400-, 100-, 4- and 1-year cycles. */
  function YearOf(d: int): int {
    var n400, r400 := d / 146097, d % 146097;
    var n100 := if r400 / 36524 == 4 then 3 else r400 / 36524;
    var r100 := r400 - 36524 * n100;
    var n4, r4 := r100 / 1461, r100 % 1461;
    var n1 := if r4 / 365 == 4 then 3 else r4 / 365;
    400 * n400 + 100 * n100 + 4 * n4 + n1 + 1
  }

  function MonthFromYearDay(leap: bool, yd: int): int {
    var l := if leap then 1 else 0;
    if yd < 31 then 1
    else if yd < 59 + l then 2
    else if yd < 90 + l then 3
    else if yd < 120 + l then 4
    else if yd < 151 + l then 5
    else if yd < 181 + l then 6
    else if yd < 212 + l then 7
    else if yd < 243 + l then 8
    else if yd < 273 + l then 9
    else if yd < 304 + l then 10
    else if yd < 334 + l then 11
    else 12
  }

  function MonthOf(d: int): (m: int)
    ensures 1 <= m <= 12
  {
    var y := YearOf(d);
    MonthFromYearDay(IsLeap(y), d - DaysBeforeYear(y))
  }

  function DayOfMonth(d: int): int {
    var y := YearOf(d);
    d - DaysBeforeYear(y) - DaysBeforeMonth(IsLeap(y), MonthOf(d)) + 1
  }

  /** 0 is Sunday. */
  function WeekdayOf(d: int): int {
    (d + 1) % 7
  }

  // ----- Building a day number from a date -----

  /** Months outside 1..12 roll into other years and days outside the month into
      other months, as Go's time.Date normalises them. */
  function DayNumber(y: int, m: int, d: int): int {
    var y' := y + (m - 1) / 12;
    DaysBeforeYear(y') + DaysBeforeMonth(IsLeap(y'), (m - 1) % 12 + 1) + d - 1
  }

  // ----- Facts -----

  lemma YearLength(y: int)
    ensures DaysBeforeYear(y + 1) == DaysBeforeYear(y) + DaysInYear(y)
  {
    MultiplesOf4(y);
    MultiplesOf100(y);
    MultiplesOf400(y);
    assert y % 100 == 0 ==> y % 4 == 0 by { HundredsAreFours(y); }
  }

  // One more year is one more multiple of 4, 100 or 400 just when it is one itself.

  lemma MultiplesOf4(y: int)
    ensures y / 4 == (y - 1) / 4 + (if y % 4 == 0 then 1 else 0)
  {
  }

  lemma MultiplesOf100(y: int)
    ensures y / 100 == (y - 1) / 100 + (if y % 100 == 0 then 1 else 0)
  {
  }

  lemma MultiplesOf400(y: int)
    ensures y / 400 == (y - 1) / 400 + (if y % 400 == 0 then 1 else 0)
    ensures y % 400 == 0 ==> y % 100 == 0
  {
    if y % 400 == 0 {
      Floor100(y, 4 * (y / 400), 0);
    }
  }

  lemma HundredsAreFours(y: int)
    ensures y % 100 == 0 ==> y % 4 == 0
  {
    if y % 100 == 0 {
      Floor4(y, 25 * (y / 100), 0);
    }
  }

  lemma Floor4(z: int, q: int, r: int)
    requires z == 4 * q + r && 0 <= r < 4
    ensures z / 4 == q && z % 4 == r
  {
  }

  lemma Floor100(z: int, q: int, r: int)
    requires z == 100 * q + r && 0 <= r < 100
    ensures z / 100 == q && z % 100 == r
  {
  }

  lemma Floor400(z: int, q: int, r: int)
    requires z == 400 * q + r && 0 <= r < 400
    ensures z / 400 == q && z % 400 == r
  {
  }

  /** YearOf answers the year whose days hold d. */
  lemma YearHoldsDay(d: int)
    ensures DaysBeforeYear(YearOf(d)) <= d < DaysBeforeYear(YearOf(d) + 1)
  {
    var n400, r400 := d / 146097, d % 146097;
    var n100 := if r400 / 36524 == 4 then 3 else r400 / 36524;
    var r100 := r400 - 36524 * n100;
    var n4, r4 := r100 / 1461, r100 % 1461;
    var n1 := if r4 / 365 == 4 then 3 else r4 / 365;
    CycleYear(n400, n100, n4, n1);
    YearLength(YearOf(d));
  }

  /** The last day of a 400-, 100-, 4- and 1-year cycle is where leap years sit. */
  lemma CycleYear(n400: int, n100: int, n4: int, n1: int)
    requires 0 <= n100 < 4 && 0 <= n4 < 25 && 0 <= n1 < 4
    ensures DaysBeforeYear(400 * n400 + 100 * n100 + 4 * n4 + n1 + 1)
            == 146097 * n400 + 36524 * n100 + 1461 * n4 + 365 * n1
    ensures IsLeap(400 * n400 + 100 * n100 + 4 * n4 + n1 + 1)
            <==> n1 == 3 && (n4 != 24 || n100 == 3)
  {
    var z := 400 * n400 + 100 * n100 + 4 * n4 + n1;
    assert z / 4 == 100 * n400 + 25 * n100 + n4 by { Floor4(z, 100 * n400 + 25 * n100 + n4, n1); }
    assert z / 100 == 4 * n400 + n100 by { Floor100(z, 4 * n400 + n100, 4 * n4 + n1); }
    assert z / 400 == n400 by { Floor400(z, n400, 100 * n100 + 4 * n4 + n1); }
    CycleLeap(n400, n100, n4, n1);
  }

  lemma CycleLeap(n400: int, n100: int, n4: int, n1: int)
    requires 0 <= n100 < 4 && 0 <= n4 < 25 && 0 <= n1 < 4
    ensures IsLeap(400 * n400 + 100 * n100 + 4 * n4 + n1 + 1)
            <==> n1 == 3 && (n4 != 24 || n100 == 3)
  {
    var y := 400 * n400 + 100 * n100 + 4 * n4 + n1 + 1;
    if n1 < 3 {
      Floor4(y, 100 * n400 + 25 * n100 + n4, n1 + 1);
    } else {
      Floor4(y, 100 * n400 + 25 * n100 + n4 + 1, 0);
      if n4 < 24 {
        Floor100(y, 4 * n400 + n100, 4 * n4 + 4);
      } else {
        Floor100(y, 4 * n400 + n100 + 1, 0);
        if n100 < 3 {
          Floor400(y, n400, 100 * n100 + 100);
        } else {
          Floor400(y, n400 + 1, 0);
        }
      }
    }
  }

  lemma {:induction false} YearsAreOrdered(y: int, z: int)
    requires y <= z
    ensures DaysBeforeYear(y) <= DaysBeforeYear(z)
    decreases z - y
  {
    if y < z {
      YearLength(y);
      YearsAreOrdered(y + 1, z);
    }
  }

  /** No other year's days hold d. */
  lemma YearIsUnique(y: int, d: int)
    requires DaysBeforeYear(y) <= d < DaysBeforeYear(y + 1)
    ensures YearOf(d) == y
  {
    YearHoldsDay(d);
    if y < YearOf(d) {
      YearsAreOrdered(y + 1, YearOf(d));
    } else if YearOf(d) < y {
      YearsAreOrdered(YearOf(d) + 1, y);
    }
  }

  /** The month table: month m of a year holds exactly its days. */
  lemma MonthTable(leap: bool, m: int, yd: int)
    requires 1 <= m <= 12
    ensures DaysBeforeMonth(leap, m) <= yd < DaysBeforeMonth(leap, m + 1) ==> MonthFromYearDay(leap, yd) == m
    ensures DaysBeforeMonth(leap, m) < DaysBeforeMonth(leap, m + 1) <= if leap then 366 else 365
  {
  }

  /** Building a valid date and reading it gives the same date. */
  lemma DateOfDayNumber(y: int, m: int, day: int)
    requires 1 <= m <= 12
    requires 1 <= day <= DaysBeforeMonth(IsLeap(y), m + 1) - DaysBeforeMonth(IsLeap(y), m)
    ensures var d := DayNumber(y, m, day); YearOf(d) == y && MonthOf(d) == m && DayOfMonth(d) == day
  {
    var d := DayNumber(y, m, day);
    assert (m - 1) / 12 == 0 && (m - 1) % 12 + 1 == m;
    var yd := DaysBeforeMonth(IsLeap(y), m) + day - 1;
    assert d == DaysBeforeYear(y) + yd;
    MonthTable(IsLeap(y), m, yd);
    assert YearOf(d) == y by {
      YearLength(y);
      YearIsUnique(y, d);
    }
  }

  /** Where the jump to the first of the next month lands. */
  lemma NextMonthStart(y: int, m: int)
    requires 1 <= m <= 12
    ensures DayNumber(y, m + 1, 1) == DaysBeforeYear(y) + DaysBeforeMonth(IsLeap(y), m + 1)
  {
    if m == 12 {
      assert m / 12 == 1 && m % 12 == 0;
      YearLength(y);
    } else {
      assert m / 12 == 0 && m % 12 == m;
    }
  }

  /** Jumping to the first of the next month passes only over days of this month. */
  lemma MonthJumpStaysInMonth(d: int, e: int)
    requires d <= e < DayNumber(YearOf(d), MonthOf(d) + 1, 1)
    ensures MonthOf(e) == MonthOf(d)
  {
    var y, m := YearOf(d), MonthOf(d);
    var leap := IsLeap(y);
    var from := DaysBeforeYear(y);
    NextMonthStart(y, m);
    assert from <= d by { YearHoldsDay(d); }
    DayInItsMonth(d);
    MonthTable(leap, m, e - from);
    assert YearOf(e) == y by {
      YearLength(y);
      YearIsUnique(y, e);
    }
  }

  lemma DayInItsMonth(d: int)
    ensures var y := YearOf(d);
            var yd := d - DaysBeforeYear(y);
            DaysBeforeMonth(IsLeap(y), MonthOf(d)) <= yd < DaysBeforeMonth(IsLeap(y), MonthOf(d) + 1)
  {
    var y := YearOf(d);
    YearHoldsDay(d);
    YearLength(y);
    YearDayInItsMonth(IsLeap(y), d - DaysBeforeYear(y));
  }

  lemma YearDayInItsMonth(leap: bool, yd: int)
    requires 0 <= yd < (if leap then 366 else 365)
    ensures var m := MonthFromYearDay(leap, yd);
            1 <= m <= 12 && DaysBeforeMonth(leap, m) <= yd < DaysBeforeMonth(leap, m + 1)
  {
  }

  /** Reading a date and building it again gives the same day. */
  lemma DayNumberOfDate(d: int)
    ensures DayNumber(YearOf(d), MonthOf(d), DayOfMonth(d)) == d
    ensures 1 <= DayOfMonth(d) <= 31
  {
    DayInItsMonth(d);
    hide YearOf, DaysBeforeYear;
    var m := MonthOf(d);
    assert (m - 1) / 12 == 0 && (m - 1) % 12 + 1 == m;
  }

  lemma MonthJumpAdvances(d: int)
    ensures d < DayNumber(YearOf(d), MonthOf(d) + 1, 1)
  {
    NextMonthStart(YearOf(d), MonthOf(d));
    DayInItsMonth(d);
  }

  /** The calendar, weekdays included, repeats every 400 years. */
  lemma {:induction false} CalendarRepeats(d: int, n: int)
    ensures var e := d + n * DAYS_PER_400_YEARS;
            MonthOf(e) == MonthOf(d) && DayOfMonth(e) == DayOfMonth(d) && WeekdayOf(e) == WeekdayOf(d)
    decreases if n < 0 then -n else n
  {
    hide YearOf, MonthOf, DayOfMonth, DaysBeforeYear;
    if n > 0 {
      CalendarRepeats(d, n - 1);
      CalendarRepeatsOnce(d + (n - 1) * DAYS_PER_400_YEARS);
    } else if n < 0 {
      CalendarRepeats(d, n + 1);
      CalendarRepeatsOnce(d + n * DAYS_PER_400_YEARS);
    }
  }

  lemma CalendarRepeatsOnce(d: int)
    ensures var e := d + DAYS_PER_400_YEARS;
            MonthOf(e) == MonthOf(d) && DayOfMonth(e) == DayOfMonth(d) && WeekdayOf(e) == WeekdayOf(d)
  {
    hide YearOf, MonthOf, DayOfMonth, DaysBeforeYear;
    var y, e := YearOf(d), d + DAYS_PER_400_YEARS;
    YearRepeats(d);
    YearShift(y);
    MonthDependsOnYearDay(d, e);
  }

  lemma YearRepeats(d: int)
    ensures YearOf(d + DAYS_PER_400_YEARS) == YearOf(d) + 400
  {
    YearHoldsDay(d);
    YearShift(YearOf(d));
    YearShift(YearOf(d) + 1);
    YearIsUnique(YearOf(d) + 400, d + DAYS_PER_400_YEARS);
  }

  lemma MonthDependsOnYearDay(d: int, e: int)
    requires IsLeap(YearOf(d)) == IsLeap(YearOf(e))
    requires d - DaysBeforeYear(YearOf(d)) == e - DaysBeforeYear(YearOf(e))
    ensures MonthOf(d) == MonthOf(e) && DayOfMonth(d) == DayOfMonth(e)
  {
  }

  lemma YearShift(y: int)
    ensures DaysBeforeYear(y + 400) == DaysBeforeYear(y) + DAYS_PER_400_YEARS
    ensures IsLeap(y + 400) == IsLeap(y)
  {
    var z := y - 1;
    Floor4(z + 400, z / 4 + 100, z % 4);
    Floor100(z + 400, z / 100 + 4, z % 100);
    Floor400(z + 400, z / 400 + 1, z % 400);
    Floor4(y + 400, y / 4 + 100, y % 4);
    Floor100(y + 400, y / 100 + 4, y % 100);
    Floor400(y + 400, y / 400 + 1, y % 400);
  }
}
