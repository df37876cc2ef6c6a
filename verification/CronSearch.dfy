/** The search of NextCronTime: minute by minute, jumping over months, days and hours
    that cannot match, on an iteration budget. Times are UTC. */
module CronSearch {
  import opened Outcomes
  import opened Calendar

  const NANOS_PER_MINUTE := 60_000_000_000
  const MAX_ITERATIONS := 4 * 366 * 24 * 60

  datatype CronFields = CronFields(minute: set<int>, hour: set<int>, day: set<int>, month: set<int>, weekday: set<int>)

  predicate MatchesDay(f: CronFields, d: int) {
    MonthOf(d) in f.month && DayOfMonth(d) in f.day && WeekdayOf(d) in f.weekday
  }

  predicate MatchesClock(f: CronFields, m: int) {
    m / 60 in f.hour && m % 60 in f.minute
  }

  /** Minute t matches: every field holds its value. Day of month and day of week
      must both match, unlike the crontab utility of IEEE Std 1003.1-2017. */
  predicate Matches(f: CronFields, t: int) {
    MatchesDay(f, t / MINUTES_PER_DAY) && MatchesClock(f, t % MINUTES_PER_DAY)
  }

  ghost predicate NoMatch(f: CronFields, from: int, to: int) {
    forall t :: from <= t < to ==> !Matches(f, t)
  }

  /** Some hour and minute of a day can match: what every parsed expression gives. */
  ghost predicate Live(f: CronFields) {
    exists m :: 0 <= m < MINUTES_PER_DAY && MatchesClock(f, m)
  }

  /** The first whole minute strictly after an instant given in nanoseconds. */
  function FirstMinuteAfter(after: int): int {
    after / NANOS_PER_MINUTE + 1
  }

  /** The least matching minute after an instant, stated without the search. */
  ghost predicate IsNextMatch(f: CronFields, after: int, t: int) {
    && FirstMinuteAfter(after) <= t
    && Matches(f, t)
    && NoMatch(f, FirstMinuteAfter(after), t)
  }

  /** The least matching minute at or after an instant. */
  ghost predicate IsFirstMatchFrom(f: CronFields, at: int, t: int) {
    && at <= t * NANOS_PER_MINUTE
    && Matches(f, t)
    && forall u :: at <= u * NANOS_PER_MINUTE && u < t ==> !Matches(f, u)
  }

  /** The instant is a whole minute that matches. */
  ghost predicate MatchesAt(f: CronFields, at: int) {
    at % NANOS_PER_MINUTE == 0 && Matches(f, at / NANOS_PER_MINUTE)
  }

  /** The least match after an instant is the least at or after it if and only if the instant itself
      is not a match. */
  lemma AtOrAfterIff(f: CronFields, after: int, t: int)
    requires IsNextMatch(f, after, t)
    ensures IsFirstMatchFrom(f, after, t) <==> !MatchesAt(f, after)
  {
    hide Matches;
    var m := after / NANOS_PER_MINUTE;
    if MatchesAt(f, after) {
      assert after <= m * NANOS_PER_MINUTE && m < t;
    } else {
      forall u | after <= u * NANOS_PER_MINUTE && u < t ensures !Matches(f, u) {
        assert u == m ==> after % NANOS_PER_MINUTE == 0;
        assert m <= u;
      }
    }
  }

  /** time.Date in UTC, as a minute. */
  function DateMinute(y: int, m: int, d: int, hour: int, minute: int): int {
    DayNumber(y, m, d) * MINUTES_PER_DAY + hour * 60 + minute
  }

  method Search(f: CronFields, after: int) returns (r: Option<int>)
    requires Live(f)
    ensures r.Some? ==> IsNextMatch(f, after, r.value)
    ensures r.None? <==> forall t :: !Matches(f, t)
  {
    hide YearOf, MonthOf, DayOfMonth, DayNumber, WeekdayOf, DateMinute, WithinBudget, Live;
    var t := FirstMinuteAfter(after);
    StartsWithinBudget(f, t);
    ghost var t0 := t;
    var i := 0;
    while i < MAX_ITERATIONS
      invariant t0 <= t && 0 <= i <= MAX_ITERATIONS
      invariant NoMatch(f, t0, t)
      invariant WithinBudget(f, t0, t, i)
    {
      var d, m := t / MINUTES_PER_DAY, t % MINUTES_PER_DAY;
      if MonthOf(d) in f.month && DayOfMonth(d) in f.day && WeekdayOf(d) in f.weekday
         && m / 60 in f.hour && m % 60 in f.minute {
        return Some(t);
      }
      ghost var was := t;
      if MonthOf(d) !in f.month {
        MonthJump(f, t);
        t := DateMinute(YearOf(d), MonthOf(d) + 1, 1, 0, 0);
      } else if DayOfMonth(d) !in f.day || WeekdayOf(d) !in f.weekday {
        DayJump(f, t);
        t := DateMinute(YearOf(d), MonthOf(d), DayOfMonth(d) + 1, 0, 0);
      } else if m / 60 !in f.hour {
        HourJump(f, t);
        t := DateMinute(YearOf(d), MonthOf(d), DayOfMonth(d), m / 60 + 1, 0);
      } else {
        t := t + 1;
      }
      StepKeepsBudget(f, t0, was, t, i);
      i := i + 1;
    }
    BudgetSuffices(f, t0, t);
    r := None;
  }

  // ----- The jumps pass over no match -----

  lemma MonthJump(f: CronFields, t: int)
    requires MonthOf(t / MINUTES_PER_DAY) !in f.month
    ensures var d := t / MINUTES_PER_DAY;
            var t' := DateMinute(YearOf(d), MonthOf(d) + 1, 1, 0, 0);
            t < t' && t' % MINUTES_PER_DAY == 0 && NoMatch(f, t, t')
  {
    hide YearOf, MonthOf, DayOfMonth, DayNumber, MatchesClock;
    var d := t / MINUTES_PER_DAY;
    var e := DayNumber(YearOf(d), MonthOf(d) + 1, 1);
    MonthJumpAdvances(d);
    forall u | t <= u < e * MINUTES_PER_DAY ensures !Matches(f, u) {
      MonthJumpStaysInMonth(d, u / MINUTES_PER_DAY);
    }
  }

  lemma DayJump(f: CronFields, t: int)
    requires !MatchesDay(f, t / MINUTES_PER_DAY)
    ensures var d := t / MINUTES_PER_DAY;
            var t' := DateMinute(YearOf(d), MonthOf(d), DayOfMonth(d) + 1, 0, 0);
            t' == (d + 1) * MINUTES_PER_DAY && NoMatch(f, t, t')
  {
    hide YearOf, MonthOf, DayOfMonth, DayNumber, MatchesDay, MatchesClock;
    var d := t / MINUTES_PER_DAY;
    NextDay(d);
  }

  lemma NextDay(d: int)
    ensures DayNumber(YearOf(d), MonthOf(d), DayOfMonth(d) + 1) == d + 1
  {
    DayNumberOfDate(d);
    hide YearOf, MonthOf, DayOfMonth;
  }

  lemma HourJump(f: CronFields, t: int)
    requires (t % MINUTES_PER_DAY) / 60 !in f.hour
    ensures var d := t / MINUTES_PER_DAY;
            var h := (t % MINUTES_PER_DAY) / 60;
            var t' := DateMinute(YearOf(d), MonthOf(d), DayOfMonth(d), h + 1, 0);
            t < t' == d * MINUTES_PER_DAY + 60 * h + 60 && NoMatch(f, t, t')
  {
    var d := t / MINUTES_PER_DAY;
    DayNumberOfDate(d);
    hide YearOf, MonthOf, DayOfMonth, DayNumber;
    var h := (t % MINUTES_PER_DAY) / 60;
    forall u | t <= u < d * MINUTES_PER_DAY + 60 * h + 60 ensures !Matches(f, u) {
      SameHour(t, u);
    }
  }

  lemma SameHour(t: int, u: int)
    requires t <= u < t - t % MINUTES_PER_DAY + 60 * ((t % MINUTES_PER_DAY) / 60) + 60
    ensures (u % MINUTES_PER_DAY) / 60 == (t % MINUTES_PER_DAY) / 60
  {
    var k := u - t;
    assert (t % MINUTES_PER_DAY) / 60 < 24;
    assert t % MINUTES_PER_DAY + k < MINUTES_PER_DAY;
    assert u / MINUTES_PER_DAY == t / MINUTES_PER_DAY;
    assert u % MINUTES_PER_DAY == t % MINUTES_PER_DAY + k;
  }

  // ----- The iteration budget -----

  /** After i rounds from t0 to t: at most one round per minute on the first day,
      one per later day that does not match, and on a later day that matches one per minute. */
  ghost predicate WithinBudget(f: CronFields, t0: int, t: int, i: int) {
    var d0, d := t0 / MINUTES_PER_DAY, t / MINUTES_PER_DAY;
    if d == d0 then i <= t - t0
    else
      && i <= MINUTES_PER_DAY + (d - d0 - 1) + t % MINUTES_PER_DAY
      && (t % MINUTES_PER_DAY != 0 ==> MatchesDay(f, d))
  }

  lemma StartsWithinBudget(f: CronFields, t0: int)
    ensures WithinBudget(f, t0, t0, 0)
  {
  }

  lemma StepKeepsBudget(f: CronFields, t0: int, t: int, t': int, i: int)
    requires Live(f) && t0 <= t < t' && WithinBudget(f, t0, t, i) && NoMatch(f, t0, t')
    requires t' % MINUTES_PER_DAY == 0
             || (t' / MINUTES_PER_DAY == t / MINUTES_PER_DAY && MatchesDay(f, t / MINUTES_PER_DAY))
    ensures WithinBudget(f, t0, t', i + 1)
  {
    hide MatchesDay, MatchesClock;
    var d0, d, d' := t0 / MINUTES_PER_DAY, t / MINUTES_PER_DAY, t' / MINUTES_PER_DAY;
    if d0 < d < d' {
      PassedDayDoesNotMatch(f, t0, t', d);
    }
  }

  /** A whole day passed without a match is not a matching day. */
  lemma PassedDayDoesNotMatch(f: CronFields, t0: int, t: int, d: int)
    requires Live(f) && NoMatch(f, t0, t)
    requires t0 / MINUTES_PER_DAY < d < t / MINUTES_PER_DAY
    ensures !MatchesDay(f, d)
  {
    hide MatchesDay, MatchesClock;
    var m :| 0 <= m < MINUTES_PER_DAY && MatchesClock(f, m);
    var u := d * MINUTES_PER_DAY + m;
    assert u / MINUTES_PER_DAY == d && u % MINUTES_PER_DAY == m;
    assert !Matches(f, u);
  }

  /** When the budget is spent, nothing matches anywhere: a match would recur within 400 years. */
  lemma BudgetSuffices(f: CronFields, t0: int, t: int)
    requires NoMatch(f, t0, t) && WithinBudget(f, t0, t, MAX_ITERATIONS)
    ensures forall u :: !Matches(f, u)
  {
    hide MatchesDay, MatchesClock;
    forall u ensures !Matches(f, u) {
      if Matches(f, u) {
        var v := MatchRecurs(f, t0, u);
        assert false;
      }
    }
  }

  /** A match anywhere recurs within 400 years of any minute, on a later day. */
  lemma MatchRecurs(f: CronFields, t0: int, u: int) returns (v: int)
    requires Matches(f, u)
    ensures Matches(f, v)
    ensures 0 < v / MINUTES_PER_DAY - t0 / MINUTES_PER_DAY <= DAYS_PER_400_YEARS
  {
    var d0, d, m := t0 / MINUTES_PER_DAY, u / MINUTES_PER_DAY, u % MINUTES_PER_DAY;
    var n := (d - d0 - 1) / DAYS_PER_400_YEARS;
    var e := d - n * DAYS_PER_400_YEARS;
    CalendarRepeats(d, -n);
    hide YearOf, MonthOf, DayOfMonth;
    v := e * MINUTES_PER_DAY + m;
    assert v / MINUTES_PER_DAY == e && v % MINUTES_PER_DAY == m;
  }
}
