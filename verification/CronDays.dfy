/** The days that a cron expression matches, beside the rule of the crontab utility in the INPUT FILES
    section of IEEE Std 1003.1-2017, and the next run beside its documentation. */
module CronDays {
  import opened Calendar
  import opened CronLanguage
  import opened CronParser
  import opened CronSearch
  import opened Outcomes
  import opened Scheduler
  import opened Strings

  /** Which fields of an expression are an asterisk. */
  datatype Stars = Stars(day: bool, month: bool, weekday: bool)

  predicate HoldsDate(f: CronFields, d: int) {
    MonthOf(d) in f.month && DayOfMonth(d) in f.day
  }

  predicate HoldsWeekday(f: CronFields, d: int) {
    WeekdayOf(d) in f.weekday
  }

  /** The standard: with an asterisk for the day of week, month and day of month decide; with
      asterisks for both of these, the day of week does; otherwise a day matches either way. */
  predicate StandardDay(f: CronFields, stars: Stars, d: int) {
    if stars.weekday then HoldsDate(f, d)
    else if stars.day && stars.month then HoldsWeekday(f, d)
    else HoldsDate(f, d) || HoldsWeekday(f, d)
  }

  /** The same rule for the two day fields alone, within the months that the expression holds. */
  predicate EitherDayOfMonth(f: CronFields, stars: Stars, d: int) {
    && MonthOf(d) in f.month
    && if stars.day || stars.weekday then DayOfMonth(d) in f.day && HoldsWeekday(f, d)
       else DayOfMonth(d) in f.day || HoldsWeekday(f, d)
  }

  /** An asterisk holds every value of its field. */
  ghost predicate StarsHold(f: CronFields, stars: Stars) {
    && (stars.day ==> forall v :: 1 <= v <= 31 ==> v in f.day)
    && (stars.month ==> forall v :: 1 <= v <= 12 ==> v in f.month)
    && (stars.weekday ==> forall v :: 0 <= v <= 6 ==> v in f.weekday)
  }

  /** The code, which wants both, agrees with the standard on a day if and only if the day of week is
      an asterisk, or month and day of month are, or the date and the weekday both hold the day or
      both do not. */
  lemma DayRulesAgreeIff(f: CronFields, stars: Stars, d: int)
    requires StarsHold(f, stars)
    ensures (MatchesDay(f, d) <==> StandardDay(f, stars, d))
            <==> stars.weekday || (stars.day && stars.month) || (HoldsDate(f, d) <==> HoldsWeekday(f, d))
  {
    DayNumberOfDate(d);
    hide MonthOf, DayOfMonth, YearOf;
    assert 0 <= WeekdayOf(d) <= 6;
  }

  /** Within the months held, the two rules differ if and only if both day fields are restricted and
      exactly one of them holds the day. */
  lemma WithinMonthsAgreeIff(f: CronFields, stars: Stars, d: int)
    ensures (MatchesDay(f, d) <==> EitherDayOfMonth(f, stars, d))
            <==> stars.day || stars.weekday || MonthOf(d) !in f.month
                 || (DayOfMonth(d) in f.day <==> HoldsWeekday(f, d))
  {
    hide MonthOf, DayOfMonth, WeekdayOf;
  }

  // ----- Expressions -----

  function StarsOf(expr: string): Stars
    requires |Fields(expr)| == 5
  {
    Stars(Fields(expr)[2] == "*", Fields(expr)[3] == "*", Fields(expr)[4] == "*")
  }

  const STAR := [Part(Every, None)]

  lemma StarPrints()
    ensures PrintField(STAR) == "*"
  {
    assert PrintParts(STAR) == ["*"];
  }

  lemma StarMeansAll(min: nat, max: nat)
    requires min <= max <= 59
    ensures FieldValues("*", min, max) == Some(MeaningOf(STAR, min, max))
    ensures forall v :: min <= v <= max <==> v in MeaningOf(STAR, min, max)
  {
    StarPrints();
    FieldRoundTrip(STAR, min, max);
    forall v ensures min <= v <= max <==> v in MeaningOf(STAR, min, max) {
      assert v in MeaningOf(STAR, min, max) <==> v in Meaning(STAR[0], min, max);
    }
  }

  /** What the expression's text says of its fields. */
  lemma StarsOfHold(expr: string)
    requires ParseCron(expr).Some?
    ensures |Fields(expr)| == 5 && StarsHold(ParseCron(expr).value, StarsOf(expr))
  {
    hide FieldValues, MeaningOf;
    StarMeansAll(1, 31);
    StarMeansAll(1, 12);
    StarMeansAll(0, 6);
  }

  /** For every expression and day, the code and the standard agree exactly when the day of week is an
      asterisk, or month and day of month are, or date and weekday agree about the day. */
  lemma ExpressionAgreesIff(expr: string, d: int)
    requires ParseCron(expr).Some?
    ensures |Fields(expr)| == 5
    ensures var f, stars := ParseCron(expr).value, StarsOf(expr);
            (MatchesDay(f, d) <==> StandardDay(f, stars, d))
            <==> stars.weekday || (stars.day && stars.month) || (HoldsDate(f, d) <==> HoldsWeekday(f, d))
  {
    hide ParseCron, StarsOf, StarsHold, MatchesDay, StandardDay;
    StarsOfHold(expr);
    DayRulesAgreeIff(ParseCron(expr).value, StarsOf(expr), d);
  }

  function One(n: nat): seq<Part> {
    [Part(At(n), None)]
  }

  lemma OnePrints(n: nat)
    requires n < 10
    ensures PrintField(One(n)) == [('0' as int + n) as char]
  {
    assert PrintParts(One(n)) == [Decimal(n)];
  }

  lemma OneMeans(n: nat, min: nat, max: nat)
    requires min <= n <= max
    ensures MeaningOf(One(n), min, max) == {n}
  {
    assert forall v :: v in MeaningOf(One(n), min, max) <==> v in Meaning(One(n)[0], min, max);
  }

  const FIRST_OR_FRIDAY := "0 0 1 * 5"
  const EVERY_MINUTE := "* * * * *"

  /** What a word adds in front of joined words. */
  lemma JoinFront(word: string, words: seq<string>, text: string)
    requires words != [] && Join(words[1..], ' ') == text && word == words[0]
    ensures Join(words, ' ') == if |words| == 1 then word else word + " " + text
  {
  }

  lemma TextOfFirstOrFriday()
    ensures FIRST_OR_FRIDAY == Join(["0", "0", "1", "*", "5"], ' ')
  {
    hide Join;
    TextOfFirstOrFridayTail();
    var words := ["0", "0", "1", "*", "5"];
    assert words[1..] == ["0", "1", "*", "5"];
    assert words[1..][1..] == ["1", "*", "5"];
    JoinFront("0", words[1..], "1 * 5");
    JoinFront("0", words, "0 1 * 5");
  }

  lemma TextOfFirstOrFridayTail()
    ensures Join(["1", "*", "5"], ' ') == "1 * 5"
  {
    hide Join;
    var words := ["1", "*", "5"];
    assert words[1..] == ["*", "5"];
    assert words[1..][1..] == ["5"];
    assert Join(["5"], ' ') == "5" by { JoinOne("5"); }
    JoinFront("*", words[1..], "5");
    JoinFront("1", words, "* 5");
  }

  lemma JoinOne(word: string)
    ensures Join([word], ' ') == word
  {
  }

  lemma TextOfEveryMinute()
    ensures EVERY_MINUTE == Join(["*", "*", "*", "*", "*"], ' ')
  {
    hide Join;
    TextOfThreeStars();
    var words := ["*", "*", "*", "*", "*"];
    assert words[1..] == ["*", "*", "*", "*"];
    assert words[1..][1..] == ["*", "*", "*"];
    JoinFront("*", words[1..], "* * *");
    JoinFront("*", words, "* * * *");
  }

  lemma TextOfThreeStars()
    ensures Join(["*", "*", "*"], ' ') == "* * *"
  {
    hide Join;
    var words := ["*", "*", "*"];
    assert words[1..] == ["*", "*"];
    assert words[1..][1..] == ["*"];
    JoinOne("*");
    JoinFront("*", words[1..], "*");
    JoinFront("*", words, "* *");
  }

  lemma FirstOrFridayParses()
    ensures |Fields(FIRST_OR_FRIDAY)| == 5 && StarsOf(FIRST_OR_FRIDAY) == Stars(false, true, false)
    ensures ParseCron(FIRST_OR_FRIDAY) == Some(CronFields({0}, {0}, {1}, MeaningOf(STAR, 1, 12), {5}))
  {
    hide ParseCron, MeaningOf, PrintField, Fields, Join, FIRST_OR_FRIDAY;
    TextOfFirstOrFriday();
    StarPrints();
    OnePrints(0);
    OnePrints(1);
    OnePrints(5);
    OneMeans(0, 0, 59);
    OneMeans(0, 0, 23);
    OneMeans(1, 1, 31);
    OneMeans(5, 0, 6);
    CronRoundTrip(One(0), One(0), One(1), STAR, One(5));
    FieldsJoin(["0", "0", "1", "*", "5"]);
  }

  lemma EveryMinuteParses()
    ensures ParseCron(EVERY_MINUTE)
            == Some(CronFields(MeaningOf(STAR, 0, 59), MeaningOf(STAR, 0, 23), MeaningOf(STAR, 1, 31),
                               MeaningOf(STAR, 1, 12), MeaningOf(STAR, 0, 6)))
  {
    hide ParseCron, MeaningOf, PrintField, Join, EVERY_MINUTE;
    TextOfEveryMinute();
    StarPrints();
    CronRoundTrip(STAR, STAR, STAR, STAR, STAR);
  }

  /** Midnight on the first of a month and on Fridays: day 0 of the calendar, the first of January of
      the year 1, is a Monday. The standard matches it, the code does not. */
  lemma FirstButNotFriday()
    ensures ParseCron(FIRST_OR_FRIDAY).Some? && |Fields(FIRST_OR_FRIDAY)| == 5
    ensures var f, stars := ParseCron(FIRST_OR_FRIDAY).value, StarsOf(FIRST_OR_FRIDAY);
            !MatchesDay(f, 0) && StandardDay(f, stars, 0) && EitherDayOfMonth(f, stars, 0)
  {
    hide ParseCron, MeaningOf, Fields, MonthOf, DayOfMonth, WeekdayOf, FIRST_OR_FRIDAY, StarsOf;
    FirstOrFridayParses();
    StarMeansAll(1, 12);
    FirstOfJanuary();
  }

  lemma FirstOfJanuary()
    ensures MonthOf(0) == 1 && DayOfMonth(0) == 1 && WeekdayOf(0) == 1
  {
    hide YearOf, MonthOf, DayOfMonth;
    FirstDay();
    DateOfDayNumber(1, 1, 1);
  }

  lemma FirstDay()
    ensures DayNumber(1, 1, 1) == 0 && DaysBeforeMonth(IsLeap(1), 2) - DaysBeforeMonth(IsLeap(1), 1) == 31
  {
  }

  // ----- At or after -----

  /** The next run that is computed is the next one at or after the instant, as it is documented, if
      and only if the instant itself is not a matching minute. */
  lemma NextRunAtOrAfterIff(expr: string, after: int)
    requires NextRun(expr, after).Success?
    ensures var f := ParseCron(expr).value;
            IsFirstMatchFrom(f, after, NextRun(expr, after).value) <==> !MatchesAt(f, after)
  {
    hide ParseCron, Matches;
    AtOrAfterIff(ParseCron(expr).value, after, NextRun(expr, after).value);
  }

  /** Every minute: asked at a whole minute, the code answers the one after it. */
  lemma NextMinuteNotThisOne()
    ensures NextRun(EVERY_MINUTE, 0) == Success(1) && ParseCron(EVERY_MINUTE).Some?
    ensures MatchesAt(ParseCron(EVERY_MINUTE).value, 0) && !IsFirstMatchFrom(ParseCron(EVERY_MINUTE).value, 0, 1)
  {
    hide ParseCron, MeaningOf, EVERY_MINUTE, Matches, IsFirstMatchFrom;
    EveryMinuteParses();
    var f := ParseCron(EVERY_MINUTE).value;
    EveryMinuteMatches(0);
    EveryMinuteMatches(1);
    assert IsNextMatch(f, 0, 1);
    NextMatchIsUnique(f, 0, 1, NextRun(EVERY_MINUTE, 0).value);
    AtOrAfterIff(f, 0, 1);
  }

  lemma EveryMinuteMatches(t: int)
    ensures ParseCron(EVERY_MINUTE).Some? && Matches(ParseCron(EVERY_MINUTE).value, t)
  {
    hide ParseCron, MeaningOf, EVERY_MINUTE, Matches;
    EveryMinuteParses();
    StarMeansAll(0, 59);
    StarMeansAll(0, 23);
    StarMeansAll(1, 31);
    StarMeansAll(1, 12);
    StarMeansAll(0, 6);
    FullMatches(ParseCron(EVERY_MINUTE).value, t);
  }

  lemma FullMatches(f: CronFields, t: int)
    requires forall v :: 0 <= v <= 59 ==> v in f.minute
    requires forall v :: 0 <= v <= 23 ==> v in f.hour
    requires StarsHold(f, Stars(true, true, true))
    ensures Matches(f, t)
  {
    DayNumberOfDate(t / MINUTES_PER_DAY);
    hide MonthOf, DayOfMonth, YearOf;
  }
}
