/** The per-agent request counter of the MCP gateway: one window per agent, which the first call
    opens and every later call inside it counts against. Instants are in nanoseconds. */
module FixedWindow {
  import opened Arithmetic
  import opened Outcomes

  datatype Window = Window(count: int, start: int)

  type Windows = map<string, Window>

  const MINUTE := 60_000_000_000

  predicate Expired(w: Window, interval: nat, now: int) {
    now - w.start >= interval
  }

  /** The window of an agent that a call at this instant falls into. */
  function Live(ws: Windows, interval: nat, agent: string, now: int): Option<Window> {
    if agent in ws && !Expired(ws[agent], interval, now) then Some(ws[agent]) else None
  }

  function Counted(ws: Windows, interval: nat, agent: string, now: int): Windows {
    match Live(ws, interval, agent, now)
    case None => ws[agent := Window(1, now)]
    case Some(w) => ws[agent := Window(w.count + 1, w.start)]
  }

  /** The call that opens a window is let through whatever the limit is. */
  predicate Allowed(ws: Windows, limit: int, interval: nat, agent: string, now: int) {
    match Live(ws, interval, agent, now)
    case None => true
    case Some(w) => w.count < limit
  }

  function Swept(ws: Windows, interval: nat, now: int): Windows {
    map k | k in ws && now - ws[k].start < interval * 2 :: ws[k]
  }

  class RateLimiter {
    var windows: Windows
    const limit: int
    const interval: nat

    constructor (requestsPerMinute: int)
      ensures windows == map[] && limit == requestsPerMinute && interval == 60 * 1_000_000_000
    {
      windows := map[];
      limit := requestsPerMinute;
      interval := MINUTE;
    }

    /** Whether the call is within the limit; if not, the caller gets an error. */
    method Allow(agent: string, now: int) returns (ok: bool)
      modifies this
      ensures ok == Allowed(old(windows), limit, interval, agent, now)
      ensures windows == Counted(old(windows), interval, agent, now)
    {
      if agent !in windows || now - windows[agent].start >= interval {
        windows := windows[agent := Window(1, now)];
        return true;
      }
      windows := windows[agent := windows[agent].(count := windows[agent].count + 1)];
      return windows[agent].count <= limit;
    }

    method Reset(agent: string)
      modifies this
      ensures windows == old(windows) - {agent}
    {
      windows := windows - {agent};
    }

    method Cleanup(now: int)
      modifies this
      ensures windows == Swept(old(windows), interval, now)
      ensures forall k :: k in windows <==> k in old(windows) && now - old(windows)[k].start < 2 * interval
    {
      var todo := windows.Keys;
      ghost var was := windows;
      while todo != {}
        invariant todo <= windows.Keys <= was.Keys
        invariant forall k :: k in windows ==> windows[k] == was[k]
        invariant forall k :: k in was && k !in todo ==> (k in windows <==> now - was[k].start < interval * 2)
        decreases |todo|
      {
        var id :| id in todo;
        if now - windows[id].start >= interval * 2 {
          windows := windows - {id};
        }
        todo := todo - {id};
      }
    }
  }

  // ----- Runs -----

  datatype Step = Call(agent: string, at: int) | Reset(agent: string, at: int) | Cleanup(at: int)

  function Next(ws: Windows, interval: nat, a: Step): Windows {
    match a
    case Call(id, at) => Counted(ws, interval, id, at)
    case Reset(id, _) => ws - {id}
    case Cleanup(at) => Swept(ws, interval, at)
  }

  /** Steps happen in the order of the clock. */
  predicate Timed(now: int, steps: seq<Step>)
    decreases steps
  {
    steps == [] || (now <= steps[0].at && Timed(steps[0].at, steps[1..]))
  }

  /** The answers to the calls of a run, in the order of the calls. */
  function Answers(ws: Windows, limit: int, interval: nat, steps: seq<Step>): seq<bool>
    decreases steps
  {
    if steps == [] then []
    else (if steps[0].Call? then [Allowed(ws, limit, interval, steps[0].agent, steps[0].at)] else [])
         + Answers(Next(ws, interval, steps[0]), limit, interval, steps[1..])
  }

  // ----- Cleanup changes no answer -----

  function WithoutCleanup(steps: seq<Step>): seq<Step> {
    if steps == [] then []
    else (if steps[0].Cleanup? then [] else [steps[0]]) + WithoutCleanup(steps[1..])
  }

  /** Two tables with the same live windows. */
  ghost predicate SameLive(ws: Windows, ws': Windows, interval: nat, now: int) {
    forall id :: Live(ws, interval, id, now) == Live(ws', interval, id, now)
  }

  lemma StepKeepsSameLive(ws: Windows, ws': Windows, interval: nat, now: int, a: Step)
    requires SameLive(ws, ws', interval, now) && now <= a.at
    ensures SameLive(Next(ws, interval, a), if a.Cleanup? then ws' else Next(ws', interval, a), interval, a.at)
  {
    forall id
      ensures Live(Next(ws, interval, a), interval, id, a.at)
              == Live(if a.Cleanup? then ws' else Next(ws', interval, a), interval, id, a.at)
    {
      assert Live(ws, interval, id, now) == Live(ws', interval, id, now);
    }
  }

  lemma {:induction false} AnswersAgree(ws: Windows, ws': Windows, limit: int, interval: nat, now: int,
                                        steps: seq<Step>)
    requires SameLive(ws, ws', interval, now) && Timed(now, steps)
    ensures Answers(ws, limit, interval, steps) == Answers(ws', limit, interval, WithoutCleanup(steps))
    decreases steps
  {
    if steps != [] {
      var a := steps[0];
      StepKeepsSameLive(ws, ws', interval, now, a);
      if a.Cleanup? {
        assert WithoutCleanup(steps) == WithoutCleanup(steps[1..]);
        AnswersAgree(Next(ws, interval, a), ws', limit, interval, a.at, steps[1..]);
      } else {
        assert WithoutCleanup(steps)[1..] == WithoutCleanup(steps[1..]);
        assert a.Call? ==> Live(ws, interval, a.agent, now) == Live(ws', interval, a.agent, now);
        AnswersAgree(Next(ws, interval, a), Next(ws', interval, a), limit, interval, a.at, steps[1..]);
      }
    }
  }

  /** Cleaning up, whenever and however often, never changes the answer to any call. */
  lemma CleanupIsTransparent(ws: Windows, limit: int, interval: nat, now: int, steps: seq<Step>)
    requires Timed(now, steps)
    ensures Answers(ws, limit, interval, steps) == Answers(ws, limit, interval, WithoutCleanup(steps))
  {
    AnswersAgree(ws, ws, limit, interval, now, steps);
  }

  // ----- The bound -----

  /** The calls of the agent in [x, x + interval) that a run lets through. */
  function Passed(ws: Windows, limit: int, interval: nat, agent: string, x: int, steps: seq<Step>): nat
    decreases steps
  {
    if steps == [] then 0
    else
      (if steps[0].Call? && steps[0].agent == agent && x <= steps[0].at < x + interval
          && Allowed(ws, limit, interval, agent, steps[0].at) then 1 else 0)
      + Passed(Next(ws, interval, steps[0]), limit, interval, agent, x, steps[1..])
  }

  /** What a run from here on can still let through in [x, x + interval). A window opened inside
      the interval outlasts it; one opened before it may overlap it once. */
  function Quota(ws: Windows, limit: int, interval: nat, agent: string, x: int, now: int): int {
    var most := Max(limit, 1);
    if now >= x + interval then 0
    else match Live(ws, interval, agent, now)
      case None => if now >= x then most else 2 * most - 1
      case Some(w) =>
        if w.start >= x then Max(limit - w.count, 0)
        else if w.start + interval > x then Max(limit - w.count, 0) + most
        else 2 * most - 1
  }

  /** Windows have been opened by a call, in the past. */
  ghost predicate Proper(ws: Windows, now: int) {
    forall k :: k in ws ==> ws[k].count >= 1 && ws[k].start <= now
  }

  lemma NextIsProper(ws: Windows, interval: nat, now: int, a: Step)
    requires Proper(ws, now) && now <= a.at
    ensures Proper(Next(ws, interval, a), a.at)
  {
  }

  lemma QuotaShrinks(ws: Windows, limit: int, interval: nat, agent: string, x: int, now: int, later: int)
    requires Proper(ws, now) && now <= later && interval > 0
    ensures Quota(ws, limit, interval, agent, x, later) <= Quota(ws, limit, interval, agent, x, now)
  {
  }

  lemma StepUsesQuota(ws: Windows, limit: int, interval: nat, agent: string, x: int, a: Step)
    requires Proper(ws, a.at) && interval > 0 && !(a.Reset? && a.agent == agent)
    ensures Quota(Next(ws, interval, a), limit, interval, agent, x, a.at)
            <= Quota(ws, limit, interval, agent, x, a.at)
               - if a.Call? && a.agent == agent && x <= a.at < x + interval
                    && Allowed(ws, limit, interval, agent, a.at) then 1 else 0
  {
  }

  predicate NoReset(agent: string, steps: seq<Step>) {
    forall i | 0 <= i < |steps| :: !(steps[i].Reset? && steps[i].agent == agent)
  }

  lemma {:induction false} PassedWithinQuota(ws: Windows, limit: int, interval: nat, agent: string, x: int, now: int,
                                             steps: seq<Step>)
    requires Proper(ws, now) && Timed(now, steps) && interval > 0 && NoReset(agent, steps)
    ensures Passed(ws, limit, interval, agent, x, steps) <= Quota(ws, limit, interval, agent, x, now)
    decreases steps
  {
    hide Quota;
    if steps == [] {
      QuotaNotNegative(ws, limit, interval, agent, x, now);
    } else {
      var a := steps[0];
      QuotaShrinks(ws, limit, interval, agent, x, now, a.at);
      StepUsesQuota(ws, limit, interval, agent, x, a);
      NextIsProper(ws, interval, now, a);
      PassedWithinQuota(Next(ws, interval, a), limit, interval, agent, x, a.at, steps[1..]);
    }
  }

  lemma QuotaNotNegative(ws: Windows, limit: int, interval: nat, agent: string, x: int, now: int)
    ensures Quota(ws, limit, interval, agent, x, now) >= 0
  {
  }

  /** Of the calls an agent makes in any stretch of one interval, at most 2 * limit - 1 are let
      through (one, if the limit is not positive), unless the agent's window is reset. */
  lemma WindowBound(ws: Windows, limit: int, interval: nat, agent: string, x: int, now: int, steps: seq<Step>)
    requires Proper(ws, now) && Timed(now, steps) && interval > 0 && NoReset(agent, steps)
    ensures Passed(ws, limit, interval, agent, x, steps) <= 2 * Max(limit, 1) - 1
  {
    PassedWithinQuota(ws, limit, interval, agent, x, now, steps);
  }

  // ----- The bound is reached -----

  function Repeat(agent: string, at: int, n: nat): seq<Step> {
    if n == 0 then [] else [Call(agent, at)] + Repeat(agent, at, n - 1)
  }

  /** Calls inside a live window are let through as long as the limit allows. */
  lemma {:induction false} RepeatPasses(ws: Windows, limit: int, interval: nat, agent: string, x: int, at: int, n: nat,
                                        rest: seq<Step>)
    requires x <= at < x + interval && Live(ws, interval, agent, at).Some? && Timed(at, rest)
    requires Live(ws, interval, agent, at).value.count + n <= limit
    ensures var w := Live(ws, interval, agent, at).value;
            Passed(ws, limit, interval, agent, x, Repeat(agent, at, n) + rest)
            == n + Passed(ws[agent := Window(w.count + n, w.start)], limit, interval, agent, x, rest)
    ensures Timed(at, Repeat(agent, at, n) + rest)
  {
    var w := Live(ws, interval, agent, at).value;
    if n == 0 {
      assert Repeat(agent, at, n) + rest == rest;
      assert ws[agent := Window(w.count + n, w.start)] == ws;
    } else {
      hide Passed, Timed, Allowed;
      var s, tail := Repeat(agent, at, n) + rest, Repeat(agent, at, n - 1) + rest;
      assert s == [Call(agent, at)] + tail;
      var ws' := Counted(ws, interval, agent, at);
      RepeatPasses(ws', limit, interval, agent, x, at, n - 1, rest);
      CallThen(ws, limit, interval, agent, x, at, tail);
      assert ws'[agent := Window(w.count + n, w.start)] == ws[agent := Window(w.count + n, w.start)];
    }
  }

  lemma CallThen(ws: Windows, limit: int, interval: nat, agent: string, x: int, at: int, rest: seq<Step>)
    requires x <= at < x + interval && Timed(at, rest)
    requires Live(ws, interval, agent, at).Some? && Live(ws, interval, agent, at).value.count < limit
    ensures Timed(at, [Call(agent, at)] + rest)
    ensures Passed(ws, limit, interval, agent, x, [Call(agent, at)] + rest)
            == 1 + Passed(Counted(ws, interval, agent, at), limit, interval, agent, x, rest)
  {
    assert ([Call(agent, at)] + rest)[1..] == rest;
    hide Live, Counted;
  }

  lemma {:induction false} RepeatHasNoReset(agent: string, at: int, n: nat, rest: seq<Step>)
    requires NoReset(agent, rest)
    ensures NoReset(agent, Repeat(agent, at, n) + rest)
  {
    if n == 0 {
      assert Repeat(agent, at, n) + rest == rest;
    } else {
      RepeatHasNoReset(agent, at, n - 1, rest);
      assert Repeat(agent, at, n) + rest == [Call(agent, at)] + (Repeat(agent, at, n - 1) + rest);
    }
  }

  /** A call that opens a window, and the calls that use it up. */
  function Burst(agent: string, first: int, last: int, n: nat, rest: seq<Step>): seq<Step> {
    [Call(agent, first)] + (Repeat(agent, last, n) + rest)
  }

  lemma BurstPasses(ws: Windows, limit: int, interval: nat, agent: string, x: int, first: int, last: int, n: nat,
                    rest: seq<Step>)
    requires first <= last < first + interval && x <= last < x + interval && n + 1 <= limit
    requires Timed(last, rest) && NoReset(agent, rest) && Live(ws, interval, agent, first).None?
    ensures Passed(ws, limit, interval, agent, x, Burst(agent, first, last, n, rest))
            == (if x <= first then 1 else 0) + n
              + Passed(ws[agent := Window(n + 1, first)], limit, interval, agent, x, rest)
    ensures Timed(first, Burst(agent, first, last, n, rest)) && NoReset(agent, Burst(agent, first, last, n, rest))
  {
    var s := Burst(agent, first, last, n, rest);
    assert s[1..] == Repeat(agent, last, n) + rest;
    var ws' := ws[agent := Window(1, first)];
    RepeatPasses(ws', limit, interval, agent, x, last, n, rest);
    assert ws'[agent := Window(n + 1, first)] == ws[agent := Window(n + 1, first)];
    RepeatHasNoReset(agent, last, n, rest);
  }

  /** An agent that opens a window, uses it up at its last instant and then uses up the next one at
      its first is let through 2 * limit - 1 times within one interval. */
  lemma TwoBurstsPass(limit: nat, interval: nat, agent: string) returns (steps: seq<Step>)
    requires limit >= 1 && interval >= 2
    ensures Timed(0, steps) && NoReset(agent, steps)
    ensures Passed(map[], limit, interval, agent, interval - 1, steps) == 2 * limit - 1
  {
    hide Burst, Timed, Passed;
    var second := Burst(agent, interval, interval, limit - 1, []);
    var ws: Windows := map[agent := Window(limit, 0)];
    EmptyRun(ws[agent := Window(limit, interval)], limit, interval, agent, interval - 1);
    BurstPasses(ws, limit, interval, agent, interval - 1, interval, interval, limit - 1, []);
    TimedEarlier(interval, interval - 1, second);
    steps := Burst(agent, 0, interval - 1, limit - 1, second);
    BurstPasses(map[], limit, interval, agent, interval - 1, 0, interval - 1, limit - 1, second);
  }

  /** The call that opens a window is let through whatever the limit is. */
  lemma OpeningCallPasses(limit: int, interval: nat, agent: string, at: int)
    requires interval > 0
    ensures Passed(map[], limit, interval, agent, at, [Call(agent, at)]) == 1
  {
    assert [Call(agent, at)][1..] == [];
  }

  /** The bound is reached for every limit: by two bursts, or by one call if the limit is not positive. */
  lemma WindowBoundIsTight(limit: int, interval: nat, agent: string) returns (steps: seq<Step>)
    requires interval >= 2
    ensures Timed(0, steps) && NoReset(agent, steps)
    ensures Passed(map[], limit, interval, agent, interval - 1, steps) == 2 * Max(limit, 1) - 1
  {
    if limit >= 1 {
      steps := TwoBurstsPass(limit, interval, agent);
    } else {
      steps := [Call(agent, interval - 1)];
      OpeningCallPasses(limit, interval, agent, interval - 1);
    }
  }

  lemma EmptyRun(ws: Windows, limit: int, interval: nat, agent: string, x: int)
    ensures Passed(ws, limit, interval, agent, x, []) == 0 && Timed(interval, [])
  {
  }

  lemma TimedEarlier(now: int, before: int, steps: seq<Step>)
    requires Timed(now, steps) && before <= now
    ensures Timed(before, steps)
  {
  }
}
