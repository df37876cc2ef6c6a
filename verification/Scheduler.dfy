/** The cron scheduler: NextCronTime, the registry of scheduled syncs and its ticks.
    Instants are nanoseconds and never decrease; syncs run in UTC. */
module Scheduler {
  import opened Outcomes
  import opened CronSearch
  import opened CronParser
  import opened CronLanguage

  datatype CronError = BadExpression | NoMatchingTime

  /** The next matching minute strictly after an instant: the meaning of NextCronTime. */
  ghost function NextRun(expr: string, after: int): (r: Result<int, CronError>)
    ensures r == Failure(BadExpression) <==> ParseCron(expr).None?
    ensures r == Failure(NoMatchingTime) <==>
              ParseCron(expr).Some? && forall t :: !Matches(ParseCron(expr).value, t)
    ensures r.Success? ==> IsNextMatch(ParseCron(expr).value, after, r.value)
  {
    match ParseCron(expr)
    case None => Failure(BadExpression)
    case Some(f) =>
      if forall t :: !Matches(f, t) then Failure(NoMatchingTime)
      else
        assert exists t :: IsNextMatch(f, after, t) by { SomeNextMatch(expr, after); }
        var t :| IsNextMatch(f, after, t);
        Success(t)
  }

  lemma SomeNextMatch(expr: string, after: int)
    requires ParseCron(expr).Some? && exists t :: Matches(ParseCron(expr).value, t)
    ensures exists t :: IsNextMatch(ParseCron(expr).value, after, t)
  {
    hide Matches, ParseCron;
    var f, t0 := ParseCron(expr).value, FirstMinuteAfter(after);
    var u :| Matches(f, u);
    var v := MatchRecurs(f, t0, u);
    assert t0 <= v;
    LeastMatch(f, t0, v);
    var t :| t0 <= t <= v && Matches(f, t) && NoMatch(f, t0, t);
    assert IsNextMatch(f, after, t);
  }

  lemma {:induction false} LeastMatch(f: CronFields, from: int, v: int)
    requires from <= v && Matches(f, v)
    ensures exists t :: from <= t <= v && Matches(f, t) && NoMatch(f, from, t)
    decreases v - from
  {
    hide Matches;
    if exists u :: from <= u < v && Matches(f, u) {
      var u :| from <= u < v && Matches(f, u);
      LeastMatch(f, from, u);
    }
  }

  lemma NextMatchIsUnique(f: CronFields, after: int, t: int, u: int)
    requires IsNextMatch(f, after, t) && IsNextMatch(f, after, u)
    ensures t == u
  {
  }

  /** Answers the matching minute itself; its error is a bad expression or one that never matches. */
  method NextCronTime(expr: string, after: int) returns (r: Result<int, CronError>)
    ensures r == NextRun(expr, after)
  {
    hide Matches;
    var fields := ParseCronExpr(expr);
    if fields.None? {
      return Failure(BadExpression);
    }
    ghost var f := ParseCron(expr).value;
    ParsedFieldsHoldSome(expr);
    FieldsLive(f, fields.value);
    var found := Search(fields.value, after);
    forall t ensures Matches(f, t) == Matches(fields.value, t) {
      SameFieldsMatchAlike(f, fields.value, t);
    }
    if found.None? {
      return Failure(NoMatchingTime);
    }
    assert IsNextMatch(f, after, found.value);
    NextMatchIsUnique(f, after, found.value, NextRun(expr, after).value);
    return Success(found.value);
  }

  // ----- The registry -----

  datatype CronSchedule = CronSchedule(expression: string, nextRun: int, lastRun: Option<int>)
  datatype ScheduledSync = ScheduledSync(syncID: string, tenantID: string, schedule: CronSchedule)
  datatype SyncRecord = SyncRecord(syncID: string, tenantID: string, cronExpr: string, status: string)

  /** What one tick does to one sync; started tells whether Temporal accepts the start. */
  ghost function Fire(s: ScheduledSync, now: int, started: bool): ScheduledSync {
    if s.schedule.nextRun > now || !started then s
    else
      var ran := s.schedule.(lastRun := Some(now));
      match NextRun(ran.expression, now)
      case Success(t) => s.(schedule := ran.(nextRun := t * NANOS_PER_MINUTE))
      case Failure(_) => s.(schedule := ran)
  }

  /** A registry in which the tick has reached some of the syncs. */
  ghost function FireSome(was: map<string, ScheduledSync>, reached: set<string>, now: int,
                          started: set<string>): map<string, ScheduledSync>
  {
    map id | id in was :: if id in reached then Fire(was[id], now, id in started) else was[id]
  }

  lemma FireOneMore(was: map<string, ScheduledSync>, reached: set<string>, now: int, started: set<string>, id: string)
    requires id in was && id !in reached
    ensures FireSome(was, reached, now, started)[id] == was[id]
    ensures FireSome(was, reached + {id}, now, started)
            == if was[id].schedule.nextRun > now || id !in started then FireSome(was, reached, now, started)
               else FireSome(was, reached, now, started)[id := Fire(was[id], now, true)]
  {
    hide NextRun;
  }

  lemma NoneReached(was: map<string, ScheduledSync>, now: int, started: set<string>)
    ensures FireSome(was, {}, now, started) == was
  {
  }

  lemma AllReached(was: map<string, ScheduledSync>, reached: set<string>, now: int, started: set<string>)
    requires reached == was.Keys
    ensures FireSome(was, reached, now, started) == map id | id in was :: Fire(was[id], now, id in started)
  {
  }

  /** A registry after loading one more stored record. */
  ghost function Load(schedules: map<string, ScheduledSync>, r: SyncRecord, now: int): map<string, ScheduledSync> {
    if r.cronExpr == "" || r.status != "active" then schedules
    else
      match NextRun(r.cronExpr, now)
      case Failure(_) => schedules
      case Success(t) =>
        schedules[r.syncID := ScheduledSync(r.syncID, r.tenantID, CronSchedule(r.cronExpr, t * NANOS_PER_MINUTE, None))]
  }

  ghost function LoadAll(schedules: map<string, ScheduledSync>, records: seq<SyncRecord>,
                         now: int): map<string, ScheduledSync>
  {
    if records == [] then schedules
    else Load(LoadAll(schedules, records[..|records| - 1], now), records[|records| - 1], now)
  }

  lemma LoadStep(schedules: map<string, ScheduledSync>, records: seq<SyncRecord>, i: nat, now: int)
    requires i < |records|
    ensures LoadAll(schedules, records[..i + 1], now) == Load(LoadAll(schedules, records[..i], now), records[i], now)
  {
    hide Load;
    assert records[..i + 1][..i] == records[..i];
  }

  lemma LoadNothing(schedules: map<string, ScheduledSync>, records: seq<SyncRecord>, now: int)
    ensures LoadAll(schedules, records[..0], now) == schedules
  {
  }

  class Scheduler {
    var schedules: map<string, ScheduledSync>

    constructor ()
      ensures schedules == map[]
    {
      schedules := map[];
    }

    /** Registers a sync, or gives a registered one a new schedule and keeps its tenant. */
    method ScheduleSync(syncID: string, schedule: CronSchedule, now: int) returns (ok: bool)
      modifies this
      ensures ok <==> syncID != "" && schedule.expression != "" && NextRun(schedule.expression, now).Success?
      ensures !ok ==> schedules == old(schedules)
      ensures ok ==>
                var tenant := if syncID in old(schedules) then old(schedules)[syncID].tenantID else "";
                var id := if syncID in old(schedules) then old(schedules)[syncID].syncID else syncID;
                schedules == old(schedules)[syncID := ScheduledSync(id, tenant, schedule.(
                  nextRun := NextRun(schedule.expression, now).value * NANOS_PER_MINUTE))]
    {
      if syncID == "" || schedule.expression == "" {
        return false;
      }
      var nextRun := NextCronTime(schedule.expression, now);
      if nextRun.Failure? {
        return false;
      }
      var s := schedule.(nextRun := nextRun.value * NANOS_PER_MINUTE);
      if syncID in schedules {
        schedules := schedules[syncID := schedules[syncID].(schedule := s)];
      } else {
        schedules := schedules[syncID := ScheduledSync(syncID, "", s)];
      }
      return true;
    }

    method UnscheduleSync(syncID: string)
      modifies this
      ensures schedules == old(schedules) - {syncID}
    {
      schedules := schedules - {syncID};
    }

    method LoadFromRepo(records: seq<SyncRecord>, now: int)
      modifies this
      ensures schedules == LoadAll(old(schedules), records, now)
    {
      hide NextRun, LoadAll;
      ghost var was := schedules;
      LoadNothing(was, records, now);
      for i := 0 to |records|
        invariant schedules == LoadAll(was, records[..i], now)
      {
        var r := records[i];
        LoadStep(was, records, i, now);
        if r.cronExpr == "" || r.status != "active" {
          continue;
        }
        var nextRun := NextCronTime(r.cronExpr, now);
        if nextRun.Failure? {
          continue;
        }
        schedules := schedules[r.syncID := ScheduledSync(r.syncID, r.tenantID,
          CronSchedule(r.cronExpr, nextRun.value * NANOS_PER_MINUTE, None))];
      }
      assert records[..|records|] == records;
    }

    /** One tick. The map is walked in any order; started holds the syncs whose start succeeds. */
    method FireDueSyncs(now: int, started: set<string>) returns (fired: set<string>)
      modifies this
      ensures schedules == map id | id in old(schedules) :: Fire(old(schedules)[id], now, id in started)
      ensures fired == set id | id in old(schedules) && old(schedules)[id].schedule.nextRun <= now && id in started
    {
      hide NextRun, FireSome;
      fired := {};
      ghost var was, reached: set<string> := schedules, {};
      var todo := schedules.Keys;
      NoneReached(was, now, started);
      while todo != {}
        invariant todo !! reached && todo + reached == was.Keys == schedules.Keys
        invariant schedules == FireSome(was, reached, now, started)
        invariant fired == set id | id in reached && was[id].schedule.nextRun <= now && id in started
        decreases todo
      {
        var id :| id in todo;
        FireOneMore(was, reached, now, started, id);
        todo, reached := todo - {id}, reached + {id};
        var s := schedules[id];
        if s.schedule.nextRun > now || id !in started {
          continue;
        }
        fired := fired + {id};
        var ran := s.schedule.(lastRun := Some(now));
        var nextRun := NextCronTime(ran.expression, now);
        if nextRun.Success? {
          ran := ran.(nextRun := nextRun.value * NANOS_PER_MINUTE);
        }
        schedules := schedules[id := s.(schedule := ran)];
      }
      AllReached(was, reached, now, started);
    }
  }

  // ----- One sync over a run of ticks -----

  datatype Tick = Tick(now: int, started: bool)

  ghost predicate Due(s: ScheduledSync, now: int) {
    s.schedule.nextRun <= now
  }

  ghost predicate Fires(s: ScheduledSync, k: Tick) {
    Due(s, k.now) && k.started
  }

  ghost function Run(s: ScheduledSync, ticks: seq<Tick>): ScheduledSync {
    if ticks == [] then s
    else
      var p := Run(s, ticks[..|ticks| - 1]);
      var k := ticks[|ticks| - 1];
      Fire(p, k.now, k.started)
  }

  /** The instant from which the next run was last computed. */
  ghost function Base(s: ScheduledSync, base: int, ticks: seq<Tick>): int {
    if ticks == [] then base
    else
      var k := ticks[|ticks| - 1];
      if Fires(Run(s, ticks[..|ticks| - 1]), k) then k.now else Base(s, base, ticks[..|ticks| - 1])
  }

  ghost function Firings(s: ScheduledSync, ticks: seq<Tick>): nat {
    if ticks == [] then 0
    else
      Firings(s, ticks[..|ticks| - 1]) +
      if Fires(Run(s, ticks[..|ticks| - 1]), ticks[|ticks| - 1]) then 1 else 0
  }

  ghost predicate Increasing(base: int, ticks: seq<Tick>) {
    && (ticks != [] ==> base < ticks[0].now)
    && forall i :: 0 < i < |ticks| ==> ticks[i - 1].now < ticks[i].now
  }

  ghost function LastNow(base: int, ticks: seq<Tick>): int {
    if ticks == [] then base else ticks[|ticks| - 1].now
  }

  /** Scheduled at instant base with an expression that matches some time. */
  ghost predicate ScheduledAt(s: ScheduledSync, base: int) {
    NextRun(s.schedule.expression, base).Success?
    && s.schedule.nextRun == NextRun(s.schedule.expression, base).value * NANOS_PER_MINUTE
  }

  ghost function FieldsOf(s: ScheduledSync): CronFields
    requires ParseCron(s.schedule.expression).Some?
  {
    ParseCron(s.schedule.expression).value
  }

  /** Minutes t with after < t <= until, as instants, that match. */
  ghost function MatchCount(f: CronFields, after: int, until: int): nat {
    CountMinutes(f, FirstMinuteAfter(after), FirstMinuteAfter(until))
  }

  /** Matching minutes from first up to and without end. */
  ghost function CountMinutes(f: CronFields, first: int, end: int): nat
    decreases end - first
  {
    if first >= end then 0
    else CountMinutes(f, first, end - 1) + if Matches(f, end - 1) then 1 else 0
  }

  /** Over any run the next run stays the first match after the last computation,
      so computing it never fails once it has succeeded. */
  lemma {:induction false} NextRunFollowsBase(s: ScheduledSync, base: int, ticks: seq<Tick>)
    requires ScheduledAt(s, base)
    ensures ScheduledAt(Run(s, ticks), Base(s, base, ticks))
    ensures Run(s, ticks).schedule.expression == s.schedule.expression
    ensures forall now :: NextRun(s.schedule.expression, now).Success?
  {
    hide Matches, ParseCron;
    var f := FieldsOf(s);
    assert Matches(f, NextRun(s.schedule.expression, base).value);
    if ticks != [] {
      NextRunFollowsBase(s, base, ticks[..|ticks| - 1]);
    }
  }

  lemma {:induction false} BaseIsPast(s: ScheduledSync, base: int, ticks: seq<Tick>)
    requires Increasing(base, ticks)
    ensures base <= Base(s, base, ticks) <= LastNow(base, ticks)
  {
    if ticks != [] {
      BaseIsPast(s, base, ticks[..|ticks| - 1]);
    }
  }

  /** A sync is due at an instant exactly when a matching minute has come since its
      next run was last computed; a failed start leaves it due. */
  lemma DueWhenAMinuteMatched(s: ScheduledSync, base: int, ticks: seq<Tick>, now: int)
    requires ScheduledAt(s, base)
    ensures Due(Run(s, ticks), now) <==>
              exists t :: Matches(FieldsOf(s), t) && Base(s, base, ticks) < t * NANOS_PER_MINUTE <= now
  {
    hide Matches, ParseCron;
    NextRunFollowsBase(s, base, ticks);
    var f, b := FieldsOf(s), Base(s, base, ticks);
    var next := NextRun(s.schedule.expression, b).value;
    assert IsNextMatch(f, b, next);
    if Due(Run(s, ticks), now) {
      assert Matches(f, next) && b < next * NANOS_PER_MINUTE <= now;
    }
    forall t | Matches(f, t) && b < t * NANOS_PER_MINUTE <= now ensures next <= t {
      assert FirstMinuteAfter(b) <= t;
    }
  }

  // ----- Counting firings -----

  lemma {:induction false} CountMinutesSplits(f: CronFields, a: int, b: int, c: int)
    requires a <= b <= c
    ensures CountMinutes(f, a, c) == CountMinutes(f, a, b) + CountMinutes(f, b, c)
    decreases c - b
  {
    hide Matches;
    if b < c {
      CountMinutesSplits(f, a, b, c - 1);
    }
  }

  lemma MatchCountSplits(f: CronFields, a: int, b: int, c: int)
    requires a <= b <= c
    ensures MatchCount(f, a, c) == MatchCount(f, a, b) + MatchCount(f, b, c)
  {
    CountMinutesSplits(f, FirstMinuteAfter(a), FirstMinuteAfter(b), FirstMinuteAfter(c));
  }

  lemma NothingToCount(f: CronFields, at: int)
    ensures MatchCount(f, at, at) == 0
  {
  }

  lemma {:induction false} CountMinutesZero(f: CronFields, first: int, end: int)
    ensures CountMinutes(f, first, end) == 0 <==> NoMatch(f, first, end)
    decreases end - first
  {
    hide Matches;
    if first < end {
      CountMinutesZero(f, first, end - 1);
    }
  }

  /** A sync is due exactly when at least one match is counted since its base. */
  lemma DueWhenCounted(s: ScheduledSync, base: int, ticks: seq<Tick>, now: int)
    requires ScheduledAt(s, base)
    ensures Due(Run(s, ticks), now) <==> MatchCount(FieldsOf(s), Base(s, base, ticks), now) > 0
  {
    hide Matches, ParseCron;
    var f, b := FieldsOf(s), Base(s, base, ticks);
    DueWhenAMinuteMatched(s, base, ticks, now);
    CountMinutesZero(f, FirstMinuteAfter(b), FirstMinuteAfter(now));
    forall t ensures FirstMinuteAfter(b) <= t < FirstMinuteAfter(now) <==> b < t * NANOS_PER_MINUTE <= now {
    }
  }

  /** No matching minute fires twice and missed minutes collapse into one firing:
      there are never more firings than matching minutes. */
  lemma {:induction false} NoMinuteFiresTwice(s: ScheduledSync, base: int, ticks: seq<Tick>)
    requires ScheduledAt(s, base) && Increasing(base, ticks)
    ensures Firings(s, ticks) <= MatchCount(FieldsOf(s), base, Base(s, base, ticks))
  {
    hide Matches, ParseCron, MatchCount, Run, Due;
    if ticks != [] {
      var before, k := ticks[..|ticks| - 1], ticks[|ticks| - 1];
      var f, b := FieldsOf(s), Base(s, base, before);
      NoMinuteFiresTwice(s, base, before);
      if Fires(Run(s, before), k) {
        DueWhenCounted(s, base, before, k.now);
        BaseIsPast(s, base, before);
        MatchCountSplits(f, base, b, k.now);
      }
    }
  }

  /** With ticks no more than a minute apart and every start accepted, each matching
      minute up to the last tick fires exactly once. */
  lemma {:induction false} EveryMinuteFiresOnce(s: ScheduledSync, base: int, ticks: seq<Tick>)
    requires ScheduledAt(s, base) && Increasing(base, ticks)
    requires forall i :: 0 <= i < |ticks| ==> ticks[i].started
    requires forall i :: 0 <= i < |ticks| ==> ticks[i].now <= LastNow(base, ticks[..i]) + NANOS_PER_MINUTE
    ensures Firings(s, ticks) == MatchCount(FieldsOf(s), base, LastNow(base, ticks))
    ensures MatchCount(FieldsOf(s), Base(s, base, ticks), LastNow(base, ticks)) == 0
  {
    hide Matches, ParseCron, MatchCount, Run, Due, Firings, Base, LastNow, Increasing, NextRun;
    var f := FieldsOf(s);
    NothingToCount(f, base);
    if ticks == [] {
      NoTicks(s, base, ticks);
    } else {
      var n := |ticks| - 1;
      var before, k := ticks[..n], ticks[n];
      var b, last := Base(s, base, before), LastNow(base, before);
      forall i | 0 <= i < n
        ensures before[i].started && before[i].now <= LastNow(base, before[..i]) + NANOS_PER_MINUTE
      {
        assert before[..i] == ticks[..i];
      }
      LastTick(s, base, ticks);
      EveryMinuteFiresOnce(s, base, before);
      BaseIsPast(s, base, before);
      DueWhenCounted(s, base, before, k.now);
      MatchCountSplits(f, base, last, k.now);
      MatchCountSplits(f, b, last, k.now);
      AtMostOneMinute(f, last, k.now);
      NothingToCount(f, k.now);
    }
  }

  lemma NoTicks(s: ScheduledSync, base: int, ticks: seq<Tick>)
    requires ticks == []
    ensures Firings(s, ticks) == 0 && Base(s, base, ticks) == base == LastNow(base, ticks)
  {
  }

  /** What the last tick of a run does. */
  lemma LastTick(s: ScheduledSync, base: int, ticks: seq<Tick>)
    requires ticks != [] && Increasing(base, ticks)
    ensures var before, k := ticks[..|ticks| - 1], ticks[|ticks| - 1];
            var fires := Fires(Run(s, before), k);
            && Increasing(base, before) && LastNow(base, ticks) == k.now > LastNow(base, before) >= base
            && Firings(s, ticks) == Firings(s, before) + (if fires then 1 else 0)
            && Base(s, base, ticks) == if fires then k.now else Base(s, base, before)
  {
    hide Run, Fires;
    BaseIsPast(s, base, ticks[..|ticks| - 1]);
  }

  lemma AtMostOneMinute(f: CronFields, after: int, until: int)
    requires until <= after + NANOS_PER_MINUTE
    ensures MatchCount(f, after, until) <= 1
  {
    hide Matches;
    var a, b := FirstMinuteAfter(after), FirstMinuteAfter(until);
    assert b <= a + 1;
    if b == a + 1 {
      assert CountMinutes(f, a, a) == 0;
    }
  }

  /** The last run is the instant of the last firing, and nothing but last and next run ever changes. */
  lemma {:induction false} LastRunIsLastFiring(s: ScheduledSync, base: int, ticks: seq<Tick>)
    ensures var r := Run(s, ticks);
            && r.schedule.lastRun == (if Firings(s, ticks) == 0 then s.schedule.lastRun else Some(Base(s, base, ticks)))
            && r == s.(schedule := s.schedule.(lastRun := r.schedule.lastRun, nextRun := r.schedule.nextRun))
  {
    hide NextRun;
    if ticks != [] {
      LastRunIsLastFiring(s, base, ticks[..|ticks| - 1]);
    }
  }

  // ----- Which stored syncs are loaded -----

  /** The record is of the sync, active, and has an expression that runs some time. */
  ghost predicate Loads(r: SyncRecord, id: string, now: int) {
    r.syncID == id && r.status == "active" && r.cronExpr != "" && NextRun(r.cronExpr, now).Success?
  }

  ghost predicate LastLoaded(records: seq<SyncRecord>, id: string, now: int, i: nat) {
    i < |records| && Loads(records[i], id, now) && forall j | i < j < |records| :: !Loads(records[j], id, now)
  }

  /** The sync that a stored record is loaded as. */
  ghost predicate IsLoaded(schedules: map<string, ScheduledSync>, id: string, r: SyncRecord, now: int) {
    && NextRun(r.cronExpr, now).Success?
    && id in schedules
    && schedules[id] == ScheduledSync(id, r.tenantID,
         CronSchedule(r.cronExpr, NextRun(r.cronExpr, now).value * 60_000_000_000, None))
  }

  ghost predicate SameSync(a: map<string, ScheduledSync>, b: map<string, ScheduledSync>, id: string) {
    (id in a <==> id in b) && (id in a ==> a[id] == b[id])
  }

  lemma LoadOne(schedules: map<string, ScheduledSync>, r: SyncRecord, now: int, id: string)
    ensures Loads(r, id, now) ==> IsLoaded(Load(schedules, r, now), id, r, now)
    ensures !Loads(r, id, now) ==> SameSync(Load(schedules, r, now), schedules, id)
  {
    hide NextRun;
  }

  lemma LastOfMore(records: seq<SyncRecord>, id: string, now: int)
    requires records != []
    ensures var n := |records| - 1;
            if Loads(records[n], id, now) then forall i: nat :: LastLoaded(records, id, now, i) <==> i == n
            else forall i: nat :: LastLoaded(records, id, now, i) <==> LastLoaded(records[..n], id, now, i)
  {
    hide Loads;
  }

  /** Loading registers a sync by its last active record with an expression that runs, for the next run in
      whole minutes and as never run; a sync without such a record stays as it was. */
  lemma {:induction false} LoadedIff(schedules: map<string, ScheduledSync>, records: seq<SyncRecord>, now: int,
                                     id: string)
    ensures forall i: nat :: LastLoaded(records, id, now, i) ==>
              IsLoaded(LoadAll(schedules, records, now), id, records[i], now)
    ensures (forall i: nat :: !LastLoaded(records, id, now, i)) ==>
              SameSync(LoadAll(schedules, records, now), schedules, id)
  {
    hide NextRun, Loads, Load, LastLoaded, IsLoaded;
    LastInRange(records, id, now);
    if records != [] {
      var n := |records| - 1;
      LoadedIff(schedules, records[..n], now, id);
      LastOfMore(records, id, now);
      LoadOne(LoadAll(schedules, records[..n], now), records[n], now, id);
      LastInRange(records[..n], id, now);
      if Loads(records[n], id, now) {
        assert LastLoaded(records, id, now, n);
      } else {
        SameIsLoaded(LoadAll(schedules, records, now), LoadAll(schedules, records[..n], now), id, now);
        forall i: nat | LastLoaded(records, id, now, i)
          ensures IsLoaded(LoadAll(schedules, records, now), id, records[i], now)
        {
          assert LastLoaded(records[..n], id, now, i) && records[..n][i] == records[i];
        }
        if forall i: nat :: !LastLoaded(records, id, now, i) {
          assert forall i: nat :: !LastLoaded(records[..n], id, now, i);
        }
      }
    }
  }

  lemma LastInRange(records: seq<SyncRecord>, id: string, now: int)
    ensures forall i: nat :: LastLoaded(records, id, now, i) ==> i < |records|
  {
  }

  lemma SameIsLoaded(a: map<string, ScheduledSync>, b: map<string, ScheduledSync>, id: string, now: int)
    requires SameSync(a, b, id)
    ensures forall r :: IsLoaded(a, id, r, now) <==> IsLoaded(b, id, r, now)
  {
    hide NextRun;
  }
}
