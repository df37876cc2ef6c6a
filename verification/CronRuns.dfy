/** When an expression runs, told from its text and the calendar alone. Instants are nanoseconds since
    the first of January of the year 1, a Monday, and runs are whole minutes. */
module CronRuns {
  import opened Calendar
  import opened CivilDates
  import opened CronDays
  import opened CronLanguage
  import opened CronParser
  import opened CronSearch
  import opened Outcomes
  import opened Scheduler
  import opened Strings

  // ----- A weekday -----

  /** "minute hour * * weekday" */
  function WeeklyText(minute: nat, hour: nat, weekday: nat): string {
    Join([Decimal(minute), Decimal(hour), "*", "*", Decimal(weekday)], ' ')
  }

  ghost predicate HoldsAll(values: set<int>, min: int, max: int) {
    forall v :: min <= v <= max ==> v in values
  }

  lemma OneIsDecimal(n: nat)
    ensures PrintField(One(n)) == Decimal(n)
  {
    assert PrintParts(One(n)) == [Decimal(n)];
  }

  lemma WeeklyParses(minute: nat, hour: nat, weekday: nat) returns (f: CronFields)
    requires minute <= 59 && hour <= 23 && weekday <= 6
    ensures ParseCron(WeeklyText(minute, hour, weekday)) == Some(f)
    ensures f.minute == {minute as int} && f.hour == {hour as int} && f.weekday == {weekday as int}
    ensures HoldsAll(f.day, 1, 31) && HoldsAll(f.month, 1, 12)
  {
    hide ParseCron, MeaningOf, PrintField, Join;
    OneIsDecimal(minute);
    OneIsDecimal(hour);
    OneIsDecimal(weekday);
    StarPrints();
    OneMeans(minute, 0, 59);
    OneMeans(hour, 0, 23);
    OneMeans(weekday, 0, 6);
    StarMeansAll(1, 31);
    StarMeansAll(1, 12);
    CronRoundTrip(One(minute), One(hour), STAR, STAR, One(weekday));
    f := ParseCron(WeeklyText(minute, hour, weekday)).value;
  }

  /** The minute of the week, counted from the first minute of a Monday. */
  function MinuteOfWeek(minute: nat, hour: nat, weekday: nat): int {
    (if weekday == 0 then 6 else weekday - 1) * 1440 + 60 * hour + minute
  }

  lemma ClockOf(m: int, hour: int, minute: int)
    requires 0 <= m < 1440 && 0 <= minute <= 59
    ensures m / 60 == hour && m % 60 == minute <==> m == 60 * hour + minute
  {
  }

  lemma WeekdayOfMinute(t: int, weekday: nat, c: int)
    requires weekday <= 6 && 0 <= c < 1440
    ensures WeekdayOf(t / 1440) == weekday && t % 1440 == c
            <==> t % 10080 == (if weekday == 0 then 6 else weekday - 1) * 1440 + c
  {
    var d, m := t / 1440, t % 1440;
    var k, r := d / 7, d % 7;
    assert t == 10080 * k + (1440 * r + m);
    assert 0 <= 1440 * r + m < 10080;
    WeekAndRest(t, k, 1440 * r + m);
    assert t % 10080 == 1440 * r + m;
    assert (d + 1) % 7 == if r == 6 then 0 else r + 1;
  }

  lemma WeekAndRest(t: int, k: int, rest: int)
    requires t == 10080 * k + rest && 0 <= rest < 10080
    ensures t % 10080 == rest
  {
  }

  lemma WeeklyMatches(f: CronFields, minute: nat, hour: nat, weekday: nat, t: int)
    requires minute <= 59 && hour <= 23 && weekday <= 6
    requires f.minute == {minute as int} && f.hour == {hour as int} && f.weekday == {weekday as int}
    requires HoldsAll(f.day, 1, 31) && HoldsAll(f.month, 1, 12)
    ensures Matches(f, t) <==> t % 10080 == MinuteOfWeek(minute, hour, weekday)
  {
    DayNumberOfDate(t / 1440);
    hide YearOf, MonthOf, DayOfMonth, DayNumber, WeekdayOf;
    ClockOf(t % 1440, hour, minute);
    WeekdayOfMinute(t, weekday, 60 * hour + minute);
  }

  /** An expression for one weekday, hour and minute runs next at the one such minute of the seven days
      that begin after the instant: Sunday is the sixth day of the week that begins with day 0. */
  lemma WeeklyRun(minute: nat, hour: nat, weekday: nat, after: int)
    requires minute <= 59 && hour <= 23 && weekday <= 6
    ensures var r := NextRun(WeeklyText(minute, hour, weekday), after);
            && r.Success?
            && after < r.value * 60_000_000_000 <= after + 7 * 24 * 60 * 60_000_000_000
            && r.value % (24 * 60) == 60 * hour + minute
            && (r.value / (24 * 60) - (if weekday == 0 then 6 else weekday - 1)) % 7 == 0
  {
    hide ParseCron, Matches, WeeklyText, WeekdayOf;
    var f := WeeklyParses(minute, hour, weekday);
    forall t ensures Matches(f, t) <==> t % 10080 == MinuteOfWeek(minute, hour, weekday) {
      WeeklyMatches(f, minute, hour, weekday, t);
    }
    var c := MinuteOfWeek(minute, hour, weekday);
    var u := FirstOnOrAfter(FirstMinuteAfter(after), c);
    assert Matches(f, u);
    var t := NextRun(WeeklyText(minute, hour, weekday), after).value;
    assert t <= u;
    MinuteInWeek(t, if weekday == 0 then 6 else weekday - 1, 60 * hour + minute);
  }

  lemma FirstOnOrAfter(t0: int, c: int) returns (u: int)
    requires 0 <= c < 10080
    ensures t0 <= u < t0 + 10080 && u % 10080 == c
  {
    u := t0 + (c - t0) % 10080;
    var k := (c - t0) / 10080;
    assert u == c - 10080 * k;
    WeekAndRest(u, -k, c);
  }

  lemma MinuteInWeek(t: int, day: int, m: int)
    requires 0 <= day <= 6 && 0 <= m < 1440 && t % 10080 == day * 1440 + m
    ensures t % 1440 == m && (t / 1440 - day) % 7 == 0
  {
    var k := t / 10080;
    assert t == 1440 * (7 * k + day) + m;
    assert t / 1440 == 7 * k + day && t % 1440 == m;
  }

  /** "0 9 * * 5", asked at the first instant of the calendar, a Monday: Friday at nine. */
  lemma FridayAtNine()
    ensures NextRun("0 9 * * 5", 0) == Success(4 * 24 * 60 + 9 * 60)
  {
    hide ParseCron, WeeklyText, NextRun, IsNextMatch, Matches;
    FridayText();
    WeeklyRun(0, 9, 5, 0);
    FridayOfFirstWeek(NextRun("0 9 * * 5", 0).value);
  }

  lemma FridayOfFirstWeek(t: int)
    requires 0 < t <= 7 * 1440 && t % 1440 == 540 && (t / 1440 - 4) % 7 == 0
    ensures t == 4 * 1440 + 540
  {
    assert 0 <= t / 1440 <= 7;
  }

  lemma FridayText()
    ensures WeeklyText(0, 9, 5) == "0 9 * * 5"
  {
    hide Join;
    var words := ["0", "9", "*", "*", "5"];
    assert words == [Decimal(0), Decimal(9), "*", "*", Decimal(5)];
    FridayTextTail();
    assert words[1..] == ["9", "*", "*", "5"];
    assert words[1..][1..] == ["*", "*", "5"];
    JoinFront("9", words[1..], "* * 5");
    JoinFront("0", words, "9 * * 5");
  }

  lemma FridayTextTail()
    ensures Join(["*", "*", "5"], ' ') == "* * 5"
  {
    hide Join;
    var words := ["*", "*", "5"];
    assert words[1..] == ["*", "5"];
    assert words[1..][1..] == ["5"];
    JoinOne("5");
    JoinFront("*", words[1..], "5");
    JoinFront("*", words, "* 5");
  }

  // ----- A date -----

  /** "minute hour day month *" */
  function YearlyText(minute: nat, hour: nat, day: nat, month: nat): string {
    Join([Decimal(minute), Decimal(hour), Decimal(day), Decimal(month), "*"], ' ')
  }

  lemma YearlyParses(minute: nat, hour: nat, day: nat, month: nat) returns (f: CronFields)
    requires minute <= 59 && hour <= 23 && 1 <= day <= 31 && 1 <= month <= 12
    ensures ParseCron(YearlyText(minute, hour, day, month)) == Some(f)
    ensures f.minute == {minute as int} && f.hour == {hour as int}
    ensures f.day == {day as int} && f.month == {month as int} && HoldsAll(f.weekday, 0, 6)
  {
    hide ParseCron, MeaningOf, PrintField, Join;
    OneIsDecimal(minute);
    OneIsDecimal(hour);
    OneIsDecimal(day);
    OneIsDecimal(month);
    StarPrints();
    OneMeans(minute, 0, 59);
    OneMeans(hour, 0, 23);
    OneMeans(day, 1, 31);
    OneMeans(month, 1, 12);
    StarMeansAll(0, 6);
    CronRoundTrip(One(minute), One(hour), One(day), One(month), STAR);
    f := ParseCron(YearlyText(minute, hour, day, month)).value;
  }

  /** The minute of a date and a time of day. */
  function MinuteOf(y: int, month: int, day: int, hour: int, minute: int): int {
    DayNumber(y, month, day) * 1440 + 60 * hour + minute
  }

  lemma YearlyMatches(f: CronFields, minute: nat, hour: nat, day: nat, month: nat, t: int)
    requires minute <= 59 && hour <= 23
    requires f.minute == {minute as int} && f.hour == {hour as int}
    requires f.day == {day as int} && f.month == {month as int} && HoldsAll(f.weekday, 0, 6)
    ensures Matches(f, t) <==>
              MonthOf(t / 1440) == month && DayOfMonth(t / 1440) == day && t % 1440 == 60 * hour + minute
  {
    NextWeekday(t / 1440);
    hide YearOf, MonthOf, DayOfMonth, WeekdayOf;
    ClockOf(t % 1440, hour, minute);
  }

  /** A match is the time of day on the date of some year, and each year that has the date has a match. */
  lemma MatchIsOnDate(f: CronFields, minute: nat, hour: nat, day: nat, month: nat, t: int) returns (y: int)
    requires minute <= 59 && hour <= 23
    requires f.minute == {minute as int} && f.hour == {hour as int}
    requires f.day == {day as int} && f.month == {month as int} && HoldsAll(f.weekday, 0, 6)
    requires Matches(f, t)
    ensures 1 <= day <= MonthLength(y, month) && t == MinuteOf(y, month, day, hour, minute)
  {
    hide YearOf, MonthOf, DayOfMonth, DayNumber, Matches;
    YearlyMatches(f, minute, hour, day, month, t);
    y := YearOf(t / 1440);
    DayIsInMonth(t / 1440);
    DayNumberOfDate(t / 1440);
  }

  lemma DateMatches(f: CronFields, minute: nat, hour: nat, day: nat, month: nat, y: int)
    requires minute <= 59 && hour <= 23 && 1 <= month <= 12
    requires f.minute == {minute as int} && f.hour == {hour as int}
    requires f.day == {day as int} && f.month == {month as int} && HoldsAll(f.weekday, 0, 6)
    requires 1 <= day <= MonthLength(y, month)
    ensures Matches(f, MinuteOf(y, month, day, hour, minute))
  {
    hide YearOf, MonthOf, DayOfMonth, DayNumber, Matches;
    DateIsRead(y, month, day);
    var t, d, m := MinuteOf(y, month, day, hour, minute), DayNumber(y, month, day), 60 * hour + minute;
    assert t / 1440 == d && t % 1440 == m;
    YearlyMatches(f, minute, hour, day, month, t);
  }

  lemma {:induction false} LaterYearsAreLater(y: int, z: int, month: int, day: int)
    requires 1 <= month <= 12 && y < z
    ensures DayNumber(y, month, day) < DayNumber(z, month, day)
    decreases z - y
  {
    hide DayNumber;
    OneYearLater(z - 1, month, day);
    if y < z - 1 {
      LaterYearsAreLater(y, z - 1, month, day);
    }
  }

  lemma OneYearLater(y: int, month: int, day: int)
    requires 1 <= month <= 12
    ensures DayNumber(y, month, day) < DayNumber(y + 1, month, day)
  {
    YearLength(y);
    hide DaysBeforeYear, IsLeap;
    assert (month - 1) / 12 == 0 && (month - 1) % 12 + 1 == month;
  }

  /** The date is in the year, and its time of day comes after the instant. */
  ghost predicate IsRun(minute: nat, hour: nat, day: nat, month: nat, after: int, y: int) {
    day <= MonthLength(y, month) && after < MinuteOf(y, month, day, hour, minute) * 60_000_000_000
  }

  /** An expression for one date and time of day runs next in the first year that has the date, and has
      it after the instant. It never runs if and only if no year, not even a leap year, has the date. */
  lemma YearlyRun(minute: nat, hour: nat, day: nat, month: nat, after: int)
    requires minute <= 59 && hour <= 23 && 1 <= day <= 31 && 1 <= month <= 12
    ensures var r := NextRun(YearlyText(minute, hour, day, month), after);
            if day <= MonthLength(2000, month) then
              && r.Success?
              && exists y ::
                   && IsRun(minute, hour, day, month, after, y) && r.value == MinuteOf(y, month, day, hour, minute)
                   && forall z :: z < y ==> !IsRun(minute, hour, day, month, after, z)
            else r == Failure(NoMatchingTime)
  {
    hide ParseCron, Matches, YearlyText, MinuteOf;
    var f := YearlyParses(minute, hour, day, month);
    var r := NextRun(YearlyText(minute, hour, day, month), after);
    if day <= MonthLength(2000, month) {
      DateMatches(f, minute, hour, day, month, 2000);
      FirstYear(f, minute, hour, day, month, after, r.value);
    } else {
      assert forall y :: MonthLength(y, month) <= MonthLength(2000, month);
      forall t ensures !Matches(f, t) {
        if Matches(f, t) {
          var y := MatchIsOnDate(f, minute, hour, day, month, t);
        }
      }
    }
  }

  lemma FirstYear(f: CronFields, minute: nat, hour: nat, day: nat, month: nat, after: int, t: int)
    requires minute <= 59 && hour <= 23 && 1 <= month <= 12 && 1 <= day
    requires f.minute == {minute as int} && f.hour == {hour as int}
    requires f.day == {day as int} && f.month == {month as int} && HoldsAll(f.weekday, 0, 6)
    requires IsNextMatch(f, after, t)
    ensures exists y :: IsRun(minute, hour, day, month, after, y) && t == MinuteOf(y, month, day, hour, minute)
              && forall z :: z < y ==> !IsRun(minute, hour, day, month, after, z)
  {
    hide Matches, DayNumber, MonthLength;
    var y := MatchIsOnDate(f, minute, hour, day, month, t);
    forall z | z < y && day <= MonthLength(z, month)
      ensures MinuteOf(z, month, day, hour, minute) < FirstMinuteAfter(after)
    {
      LaterYearsAreLater(z, y, month, day);
      DateMatches(f, minute, hour, day, month, z);
    }
  }
}
