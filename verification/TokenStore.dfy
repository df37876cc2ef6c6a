/** The store of token buckets with its callers and its cleanup loop in any interleaving: when a
    deletion can be noticed, and how many calls a key can be let through. */
module TokenStore {
  import opened TokenBucket

  /** A caller holds a bucket between getBucket and allow, by its place in `all`, and goes on
      holding it when its key is deleted. The sweep deletes keys it has seen idle. */
  datatype Sys = Sys(ids: map<string, nat>, all: seq<Bucket>, held: map<nat, (string, nat)>, idle: set<string>,
                     now: real)

  datatype Step =
    | Get(caller: nat, key: string, at: real)
    | Allow(caller: nat, at: real)
    | Inspect(key: string, at: real)
    | Delete(key: string, at: real)

  /** Places are those of buckets, and no two keys share one. */
  ghost predicate Formed(s: Sys) {
    && (forall k :: k in s.ids ==> s.ids[k] < |s.all|)
    && (forall c :: c in s.held ==> s.held[c].1 < |s.all|)
    && (forall k, k' :: k in s.ids && k' in s.ids && s.ids[k] == s.ids[k'] ==> k == k')
  }

  ghost predicate Enabled(s: Sys, a: Step) {
    && s.now <= a.at
    && match a
       case Get(c, _, _) => c !in s.held
       case Allow(c, _) => c in s.held && s.held[c].1 < |s.all|
       case Inspect(k, _) => k in s.ids && s.ids[k] < |s.all|
       case Delete(k, _) => k in s.ids && k in s.idle
  }

  ghost function Next(rpm: nat, s: Sys, a: Step): Sys
    requires Enabled(s, a)
  {
    match a
    case Get(c, k, at) =>
      if k in s.ids then s.(held := s.held[c := (k, s.ids[k])], now := at)
      else s.(ids := s.ids[k := |s.all|], all := s.all + [Full(rpm, at)], held := s.held[c := (k, |s.all|)], now := at)
    case Allow(c, at) =>
      var id := s.held[c].1;
      s.(all := s.all[id := Take(rpm, s.all[id], at)], held := s.held - {c}, now := at)
    case Inspect(k, at) =>
      s.(idle := if at - s.all[s.ids[k]].lastRefill > IDLE_SECONDS then s.idle + {k} else s.idle - {k}, now := at)
    case Delete(k, at) =>
      s.(ids := s.ids - {k}, idle := s.idle - {k}, now := at)
  }

  ghost predicate Unheld(s: Sys, key: string) {
    forall c :: c in s.held ==> s.held[c].0 != key
  }

  /** A deletion is quiet when the bucket is full and no caller is between getBucket and allow. */
  ghost predicate Quiet(rpm: nat, s: Sys, a: Step) {
    a.Delete? && a.key in s.ids && s.ids[a.key] < |s.all| ==>
      Level(rpm, s.all[s.ids[a.key]], a.at) == rpm as real && Unheld(s, a.key)
  }

  /** The tokens a call for the key would find; a missing bucket will be a full one. */
  ghost function KeyLevel(rpm: nat, s: Sys, key: string, at: real): real {
    if key in s.ids && s.ids[key] < |s.all| then Level(rpm, s.all[s.ids[key]], at) else rpm as real
  }

  /** Callers hold buckets that are in the map. */
  ghost predicate Current(s: Sys) {
    forall c :: c in s.held ==> s.held[c].0 in s.ids && s.ids[s.held[c].0] == s.held[c].1
  }

  /** Buckets hold 0 to rpm tokens and were refilled in the past. */
  ghost predicate InRange(rpm: nat, s: Sys) {
    forall i | 0 <= i < |s.all| :: 0.0 <= s.all[i].tokens <= rpm as real && s.all[i].lastRefill <= s.now
  }

  ghost predicate Sound(rpm: nat, s: Sys) {
    Formed(s) && Current(s) && InRange(rpm, s)
  }

  /** Deleting a bucket that has stayed idle since it was inspected, when nobody holds it, is quiet. */
  lemma IdleDeletionIsQuiet(rpm: nat, s: Sys, key: string, at: real)
    requires InRange(rpm, s) && key in s.ids && s.ids[key] < |s.all| && Unheld(s, key)
    requires at - s.all[s.ids[key]].lastRefill > IDLE_SECONDS
    ensures Quiet(rpm, s, Delete(key, at))
  {
    hide Level;
    IdleIsFull(rpm, s.all[s.ids[key]], at);
  }

  lemma TakeInRange(rpm: nat, b: Bucket, now: real)
    requires 0.0 <= b.tokens && b.lastRefill <= now
    ensures 0.0 <= Take(rpm, b, now).tokens <= rpm as real && Take(rpm, b, now).lastRefill == now
  {
    hide Refill;
    RefillMarks(rpm);
    RefillOrder(rpm, 0.0, now - b.lastRefill);
  }

  lemma NextIsFormed(rpm: nat, s: Sys, a: Step)
    requires Formed(s) && Enabled(s, a)
    ensures Formed(Next(rpm, s, a))
  {
    hide Take, Full;
  }

  lemma NextIsCurrent(rpm: nat, s: Sys, a: Step)
    requires Formed(s) && Current(s) && Enabled(s, a) && Quiet(rpm, s, a)
    ensures Current(Next(rpm, s, a))
  {
    hide Take, Level, Full;
  }

  lemma NextIsInRange(rpm: nat, s: Sys, a: Step)
    requires InRange(rpm, s) && Enabled(s, a)
    ensures InRange(rpm, Next(rpm, s, a))
  {
    hide Take, Level;
    match a
    case Allow(c, at) => TakeInRange(rpm, s.all[s.held[c].1], at);
    case _ =>
  }

  lemma NextIsSound(rpm: nat, s: Sys, a: Step)
    requires Sound(rpm, s) && Enabled(s, a) && Quiet(rpm, s, a)
    ensures Sound(rpm, Next(rpm, s, a))
  {
    hide Take, Level, Refill, Formed, Current, InRange;
    NextIsFormed(rpm, s, a);
    NextIsCurrent(rpm, s, a);
    NextIsInRange(rpm, s, a);
  }

  // ----- Deletions change no decision -----

  /** The store that never deletes: one bucket for each key that ever called. */
  ghost function KeptBucket(rpm: nat, keep: map<string, Bucket>, key: string, at: real): Bucket {
    if key in keep then keep[key] else Full(rpm, at)
  }

  ghost function KeepNext(rpm: nat, keep: map<string, Bucket>, s: Sys, a: Step): map<string, Bucket>
    requires Enabled(s, a)
  {
    if a.Allow? then
      var k := s.held[a.caller].0;
      keep[k := Take(rpm, KeptBucket(rpm, keep, k, a.at), a.at)]
    else keep
  }

  ghost function KeepLevel(rpm: nat, keep: map<string, Bucket>, key: string, at: real): real {
    Level(rpm, KeptBucket(rpm, keep, key, at), at)
  }

  /** The two stores hold as many tokens for each key, now and as long as nobody calls. */
  ghost predicate Alike(rpm: nat, s: Sys, keep: map<string, Bucket>) {
    forall k: string, t: real :: s.now <= t ==> KeyLevel(rpm, s, k, t) == KeepLevel(rpm, keep, k, t)
  }

  /** A step other than a call of the key leaves the key's tokens alone. */
  lemma OthersUntouched(rpm: nat, s: Sys, a: Step, key: string, later: real)
    requires Sound(rpm, s) && Enabled(s, a) && Quiet(rpm, s, a) && a.at <= later
    requires !(a.Allow? && s.held[a.caller].0 == key)
    ensures KeyLevel(rpm, Next(rpm, s, a), key, later) == KeyLevel(rpm, s, key, later)
  {
    hide Take, Level, Full;
    match a
    case Get(c, k, at) =>
      if k !in s.ids && k == key {
        FullIsFull(rpm, at, later);
      }
    case Delete(k, at) =>
      if k == key {
        FullStaysFull(rpm, s.all[s.ids[k]], at, later);
      }
    case _ =>
  }

  lemma CallTakes(rpm: nat, s: Sys, a: Step, later: real)
    requires Sound(rpm, s) && Enabled(s, a) && a.Allow?
    ensures var k := s.held[a.caller].0;
            k in s.ids
              && KeyLevel(rpm, Next(rpm, s, a), k, later) == Level(rpm, Take(rpm, s.all[s.ids[k]], a.at), later)
  {
    hide Take, Level;
  }

  lemma NextIsAlike(rpm: nat, s: Sys, keep: map<string, Bucket>, a: Step)
    requires Sound(rpm, s) && Enabled(s, a) && Quiet(rpm, s, a) && Alike(rpm, s, keep)
    ensures Alike(rpm, Next(rpm, s, a), KeepNext(rpm, keep, s, a))
  {
    var s', keep' := Next(rpm, s, a), KeepNext(rpm, keep, s, a);
    forall k: string, t: real | s'.now <= t ensures KeyLevel(rpm, s', k, t) == KeepLevel(rpm, keep', k, t) {
      hide Level, Quiet, Sound, KeyLevel, Take, Full;
      if a.Allow? && s.held[a.caller].0 == k {
        CallTakes(rpm, s, a, t);
        SameTake(rpm, s, keep, k, a.at);
      } else {
        OthersUntouched(rpm, s, a, k, t);
      }
    }
  }

  /** Alike stores answer a call alike and leave the same bucket behind. */
  lemma SameTake(rpm: nat, s: Sys, keep: map<string, Bucket>, k: string, at: real)
    requires k in s.ids && s.ids[k] < |s.all| && s.now <= at && Alike(rpm, s, keep)
    ensures Take(rpm, s.all[s.ids[k]], at) == Take(rpm, KeptBucket(rpm, keep, k, at), at)
    ensures Allows(rpm, s.all[s.ids[k]], at) == Allows(rpm, KeptBucket(rpm, keep, k, at), at)
  {
    hide Level, Full;
    assert KeyLevel(rpm, s, k, at) == KeepLevel(rpm, keep, k, at);
  }

  // ----- Runs -----

  ghost function Start(now: real): Sys {
    Sys(map[], [], map[], {}, now)
  }

  /** Each step is enabled when its turn comes. */
  ghost predicate Schedule(rpm: nat, s: Sys, steps: seq<Step>)
    decreases steps
  {
    steps == [] || (Enabled(s, steps[0]) && Schedule(rpm, Next(rpm, s, steps[0]), steps[1..]))
  }

  /** Each deletion of the run is quiet. */
  ghost predicate AllQuiet(rpm: nat, s: Sys, steps: seq<Step>)
    requires Schedule(rpm, s, steps)
    decreases steps
  {
    steps == [] || (Quiet(rpm, s, steps[0]) && AllQuiet(rpm, Next(rpm, s, steps[0]), steps[1..]))
  }

  ghost function Run(rpm: nat, s: Sys, steps: seq<Step>): Sys
    requires Schedule(rpm, s, steps)
    decreases steps
  {
    if steps == [] then s else Run(rpm, Next(rpm, s, steps[0]), steps[1..])
  }

  lemma {:induction false} RunOfSum(rpm: nat, s: Sys, first: seq<Step>, second: seq<Step>)
    requires Schedule(rpm, s, first)
    ensures Schedule(rpm, s, first + second) <==> Schedule(rpm, Run(rpm, s, first), second)
    ensures Schedule(rpm, s, first + second) ==>
              && Run(rpm, s, first + second) == Run(rpm, Run(rpm, s, first), second)
              && (AllQuiet(rpm, s, first + second) <==>
                 AllQuiet(rpm, s, first) && AllQuiet(rpm, Run(rpm, s, first), second))
    decreases first
  {
    hide Next, Enabled, Quiet;
    if first == [] {
      assert first + second == second;
    } else {
      assert (first + second)[0] == first[0] && (first + second)[1..] == first[1..] + second;
      RunOfSum(rpm, Next(rpm, s, first[0]), first[1..], second);
    }
  }

  lemma {:induction false} RunIsSound(rpm: nat, s: Sys, steps: seq<Step>)
    requires Sound(rpm, s) && Schedule(rpm, s, steps) && AllQuiet(rpm, s, steps)
    ensures Sound(rpm, Run(rpm, s, steps)) && s.now <= Run(rpm, s, steps).now
    decreases steps
  {
    hide Quiet, Sound;
    if steps != [] {
      NextIsSound(rpm, s, steps[0]);
      RunIsSound(rpm, Next(rpm, s, steps[0]), steps[1..]);
    }
  }

  lemma StartIsSound(rpm: nat, now: real)
    ensures Sound(rpm, Start(now)) && Alike(rpm, Start(now), map[])
  {
    forall k: string, t: real | now <= t
      ensures KeyLevel(rpm, Start(now), k, t) == KeepLevel(rpm, map[], k, t)
    {
      FullIsFull(rpm, t, t);
    }
  }

  // ----- The answers of a run -----

  /** The answers to the calls of a run, in the order of the calls. */
  ghost function Answers(rpm: nat, s: Sys, steps: seq<Step>): seq<bool>
    requires Schedule(rpm, s, steps)
    decreases steps
  {
    if steps == [] then []
    else
      (if steps[0].Allow? then [Allows(rpm, s.all[s.held[steps[0].caller].1], steps[0].at)] else [])
      + Answers(rpm, Next(rpm, s, steps[0]), steps[1..])
  }

  /** The answers a store that never deletes gives to the same calls. */
  ghost function KeepAnswers(rpm: nat, keep: map<string, Bucket>, s: Sys, steps: seq<Step>): seq<bool>
    requires Schedule(rpm, s, steps)
    decreases steps
  {
    if steps == [] then []
    else
      (if steps[0].Allow? then [KeptAnswer(rpm, keep, s.held[steps[0].caller].0, steps[0].at)] else [])
      + KeepAnswers(rpm, KeepNext(rpm, keep, s, steps[0]), Next(rpm, s, steps[0]), steps[1..])
  }

  ghost predicate KeptAnswer(rpm: nat, keep: map<string, Bucket>, key: string, at: real) {
    Allows(rpm, KeptBucket(rpm, keep, key, at), at)
  }

  lemma {:induction false} AnswersAgree(rpm: nat, keep: map<string, Bucket>, s: Sys, steps: seq<Step>)
    requires Sound(rpm, s) && Alike(rpm, s, keep) && Schedule(rpm, s, steps) && AllQuiet(rpm, s, steps)
    ensures Answers(rpm, s, steps) == KeepAnswers(rpm, keep, s, steps)
    decreases steps
  {
    hide Level, Quiet, Alike, Next, KeepNext, Allows;
    if steps != [] {
      var a := steps[0];
      NextIsSound(rpm, s, a);
      NextIsAlike(rpm, s, keep, a);
      if a.Allow? {
        SameTake(rpm, s, keep, s.held[a.caller].0, a.at);
      }
      AnswersAgree(rpm, KeepNext(rpm, keep, s, a), Next(rpm, s, a), steps[1..]);
    }
  }

  /** Over any run from an empty store in which deletions are quiet, every call is answered as by
      a store that never deletes a bucket. */
  lemma DeletionIsTransparent(rpm: nat, now: real, steps: seq<Step>)
    requires Schedule(rpm, Start(now), steps) && AllQuiet(rpm, Start(now), steps)
    ensures Answers(rpm, Start(now), steps) == KeepAnswers(rpm, map[], Start(now), steps)
  {
    StartIsSound(rpm, now);
    AnswersAgree(rpm, map[], Start(now), steps);
  }

  // ----- Calls that tell two stores apart -----

  /** n calls for a key by one caller at one instant. */
  function Calls(c: nat, key: string, at: real, n: nat): seq<Step> {
    if n == 0 then [] else [Get(c, key, at), Allow(c, at)] + Calls(c, key, at, n - 1)
  }

  ghost predicate CanCall(s: Sys, c: nat, at: real) {
    Formed(s) && c !in s.held && s.now <= at
  }

  ghost function AfterCall(rpm: nat, s: Sys, c: nat, key: string, at: real): Sys
    requires CanCall(s, c, at)
  {
    Next(rpm, Next(rpm, s, Get(c, key, at)), Allow(c, at))
  }

  /** A call finds the tokens of its key and takes one if there is one. */
  lemma CallFinds(rpm: nat, s: Sys, c: nat, key: string, at: real)
    requires CanCall(s, c, at)
    ensures var s1 := Next(rpm, s, Get(c, key, at));
            && Enabled(s1, Allow(c, at)) && s1.held[c].0 == key && CanCall(AfterCall(rpm, s, c, key, at), c, at)
            && (Allows(rpm, s1.all[s1.held[c].1], at) <==> KeyLevel(rpm, s, key, at) >= 1.0)
    ensures KeyLevel(rpm, AfterCall(rpm, s, c, key, at), key, at)
            == KeyLevel(rpm, s, key, at) - if KeyLevel(rpm, s, key, at) >= 1.0 then 1.0 else 0.0
  {
    hide Level, Take, Full;
    FullIsFull(rpm, at, at);
    var s1 := Next(rpm, s, Get(c, key, at));
    TakeNow(rpm, s1.all[s1.held[c].1], at);
  }

  lemma KeptCall(rpm: nat, keep: map<string, Bucket>, s: Sys, a: Step)
    requires Enabled(s, a) && a.Allow?
    ensures var key := s.held[a.caller].0;
            && (KeptAnswer(rpm, keep, key, a.at) <==> KeepLevel(rpm, keep, key, a.at) >= 1.0)
            && KeepLevel(rpm, KeepNext(rpm, keep, s, a), key, a.at)
               == KeepLevel(rpm, keep, key, a.at) - if KeepLevel(rpm, keep, key, a.at) >= 1.0 then 1.0 else 0.0
  {
    hide Level, Take, Full;
    TakeNow(rpm, KeptBucket(rpm, keep, s.held[a.caller].0, a.at), a.at);
  }

  /** What a call at the head of a run adds to what is known of the rest. */
  lemma CallFirst(rpm: nat, keep: map<string, Bucket>, s: Sys, c: nat, key: string, at: real, rest: seq<Step>, a: real,
                  b: real)
    requires a <= at <= b && CanCall(s, c, at) && Schedule(rpm, AfterCall(rpm, s, c, key, at), rest)
    ensures var s1, s2 := Next(rpm, s, Get(c, key, at)), AfterCall(rpm, s, c, key, at);
            var run := [Get(c, key, at), Allow(c, at)] + rest;
            && Schedule(rpm, s, run) && Enabled(s1, Allow(c, at)) && s1.held[c].0 == key
            && (AllQuiet(rpm, s2, rest) ==> AllQuiet(rpm, s, run))
            && Answers(rpm, s, run) == [KeyLevel(rpm, s, key, at) >= 1.0] + Answers(rpm, s2, rest)
            && KeepAnswers(rpm, keep, s, run)
               == [KeepLevel(rpm, keep, key, at) >= 1.0]
                 + KeepAnswers(rpm, KeepNext(rpm, keep, s1, Allow(c, at)), s2, rest)
            && Passed(rpm, s, run, key, a, b)
               == (if KeyLevel(rpm, s, key, at) >= 1.0 then 1 else 0) + Passed(rpm, s2, rest, key, a, b)
  {
    hide KeyLevel, KeepLevel, Allows, Take, Schedule, AllQuiet, Answers, KeepAnswers, Passed, KeptAnswer;
    CallFinds(rpm, s, c, key, at);
    var s1 := Next(rpm, s, Get(c, key, at));
    KeptCall(rpm, keep, s1, Allow(c, at));
    var run := [Get(c, key, at), Allow(c, at)] + rest;
    assert run[1..] == [Allow(c, at)] + rest && run[1..][1..] == rest;
    FirstStep(rpm, keep, s1, run[1..], key, a, b);
    FirstStep(rpm, keep, s, run, key, a, b);
    assert [] + Answers(rpm, s1, run[1..]) == Answers(rpm, s1, run[1..]);
    assert [] + KeepAnswers(rpm, keep, s1, run[1..]) == KeepAnswers(rpm, keep, s1, run[1..]);
  }

  lemma FirstStep(rpm: nat, keep: map<string, Bucket>, s: Sys, steps: seq<Step>, key: string, a: real, b: real)
    requires steps != [] && Enabled(s, steps[0]) && Schedule(rpm, Next(rpm, s, steps[0]), steps[1..])
    ensures var s', rest := Next(rpm, s, steps[0]), steps[1..];
            && Schedule(rpm, s, steps)
            && (Quiet(rpm, s, steps[0]) && AllQuiet(rpm, s', rest) ==> AllQuiet(rpm, s, steps))
            && Answers(rpm, s, steps)
               == (if steps[0].Allow? then [Allows(rpm, s.all[s.held[steps[0].caller].1], steps[0].at)] else [])
                  + Answers(rpm, s', rest)
            && KeepAnswers(rpm, keep, s, steps)
               == (if steps[0].Allow? then [KeptAnswer(rpm, keep, s.held[steps[0].caller].0, steps[0].at)] else [])
                  + KeepAnswers(rpm, KeepNext(rpm, keep, s, steps[0]), s', rest)
            && Passed(rpm, s, steps, key, a, b)
               == (if a <= steps[0].at <= b && LetsThrough(rpm, s, steps[0], key) then 1 else 0)
                  + Passed(rpm, s', rest, key, a, b)
  {
    hide Next, Quiet, Allows, KeptAnswer, KeepNext, LetsThrough;
  }

  /** As many calls as a store has tokens tell it from one that has fewer. */
  lemma {:induction false} CallsDiffer(rpm: nat, keep: map<string, Bucket>, s: Sys, c: nat, key: string, at: real,
                                       n: nat)
    requires CanCall(s, c, at) && n > 0
    requires KeepLevel(rpm, keep, key, at) < n as real <= KeyLevel(rpm, s, key, at)
    ensures Schedule(rpm, s, Calls(c, key, at, n)) && AllQuiet(rpm, s, Calls(c, key, at, n))
    ensures Answers(rpm, s, Calls(c, key, at, n)) != KeepAnswers(rpm, keep, s, Calls(c, key, at, n))
    decreases n
  {
    hide Schedule, AllQuiet, Answers, KeepAnswers, KeyLevel, KeepLevel, Next, KeepNext;
    var s2, rest := AfterCall(rpm, s, c, key, at), Calls(c, key, at, n - 1);
    CallFinds(rpm, s, c, key, at);
    var keep2 := KeepNext(rpm, keep, Next(rpm, s, Get(c, key, at)), Allow(c, at));
    KeptCall(rpm, keep, Next(rpm, s, Get(c, key, at)), Allow(c, at));
    AllPass(rpm, s2, c, key, at, n - 1, at, at);
    CallFirst(rpm, keep, s, c, key, at, rest, at, at);
    if KeepLevel(rpm, keep, key, at) >= 1.0 {
      CallsDiffer(rpm, keep2, s2, c, key, at, n - 1);
      HeadsAndTails(true, Answers(rpm, s2, rest), true, KeepAnswers(rpm, keep2, s2, rest));
    } else {
      HeadsAndTails(true, Answers(rpm, s2, rest), false, KeepAnswers(rpm, keep2, s2, rest));
    }
  }

  lemma HeadsAndTails(x: bool, xs: seq<bool>, y: bool, ys: seq<bool>)
    ensures [x] + xs == [y] + ys <==> x == y && xs == ys
  {
    if [x] + xs == [y] + ys {
      assert ([x] + xs)[0] == x && ([x] + xs)[1..] == xs && ([y] + ys)[0] == y && ([y] + ys)[1..] == ys;
    }
  }

  /** A store lets through as many calls at once as it has tokens for the key. */
  lemma {:induction false} AllPass(rpm: nat, s: Sys, c: nat, key: string, at: real, n: nat, a: real, b: real)
    requires a <= at <= b && CanCall(s, c, at) && n as real <= KeyLevel(rpm, s, key, at)
    ensures Schedule(rpm, s, Calls(c, key, at, n)) && AllQuiet(rpm, s, Calls(c, key, at, n))
    ensures Passed(rpm, s, Calls(c, key, at, n), key, a, b) == n
    decreases n
  {
    if n > 0 {
      hide Schedule, AllQuiet, Passed, KeyLevel, Next;
      CallFinds(rpm, s, c, key, at);
      AllPass(rpm, AfterCall(rpm, s, c, key, at), c, key, at, n - 1, a, b);
      CallFirst(rpm, map[], s, c, key, at, Calls(c, key, at, n - 1), a, b);
    }
  }

  lemma {:induction false} Above(ids: set<nat>) returns (n: nat)
    ensures forall id :: id in ids ==> id < n
    decreases ids
  {
    if ids == {} {
      n := 0;
    } else {
      var id :| id in ids;
      var m := Above(ids - {id});
      assert forall other :: other in ids ==> other == id || other in ids - {id};
      n := if id < m then m else id + 1;
    }
  }

  // ----- Deletions that are noticed -----

  /** However the run goes on, if its other deletions are quiet, calls are answered as by the store
      that never deletes. */
  ghost predicate Unseen(rpm: nat, keep: map<string, Bucket>, s: Sys) {
    forall steps: seq<Step> :: Schedule(rpm, s, steps) && AllQuiet(rpm, s, steps) ==>
      Answers(rpm, s, steps) == KeepAnswers(rpm, keep, s, steps)
  }

  lemma {:induction false} NobodyPasses(s: Sys, keep: map<string, Bucket>, steps: seq<Step>)
    requires Schedule(0, s, steps)
    ensures Answers(0, s, steps) == KeepAnswers(0, keep, s, steps)
    ensures forall key, a, b :: Passed(0, s, steps, key, a, b) == 0
    decreases steps
  {
    hide Refill, Take, Next, KeepNext;
    if steps != [] {
      NobodyPasses(Next(0, s, steps[0]), KeepNext(0, keep, s, steps[0]), steps[1..]);
    }
  }

  /** A deletion that is not quiet is noticed: at once, if the bucket was not full, else after the
      call of a caller that still holds the bucket. */
  lemma NoisyIsSeen(rpm: nat, s: Sys, keep: map<string, Bucket>, key: string, at: real) returns (steps: seq<Step>)
    requires rpm > 0 && Sound(rpm, s) && Alike(rpm, s, keep) && Enabled(s, Delete(key, at))
             && !Quiet(rpm, s, Delete(key, at))
    ensures Schedule(rpm, Next(rpm, s, Delete(key, at)), steps) && AllQuiet(rpm, Next(rpm, s, Delete(key, at)), steps)
    ensures Answers(rpm, Next(rpm, s, Delete(key, at)), steps)
            != KeepAnswers(rpm, keep, Next(rpm, s, Delete(key, at)), steps)
  {
    var s' := Next(rpm, s, Delete(key, at));
    assert KeyLevel(rpm, s, key, at) == KeepLevel(rpm, keep, key, at);
    hide Level, Take, Full;
    if Level(rpm, s.all[s.ids[key]], at) != rpm as real {
      var c := Above(s'.held.Keys);
      LevelAtMost(rpm, s.all[s.ids[key]], at);
      steps := Calls(c, key, at, rpm);
      CallsDiffer(rpm, keep, s', c, key, at, rpm);
    } else {
      var c :| c in s.held && s.held[c].0 == key;
      var s2, keep2 := Next(rpm, s', Allow(c, at)), KeepNext(rpm, keep, s', Allow(c, at));
      KeptCall(rpm, keep, s', Allow(c, at));
      assert rpm as real >= 1.0;
      var rest := Calls(c, key, at, rpm);
      CallsDiffer(rpm, keep2, s2, c, key, at, rpm);
      steps := [Allow(c, at)] + rest;
      assert steps[1..] == rest;
      hide Answers, KeepAnswers;
      FirstAllow(rpm, keep, s', c, at, rest);
    }
  }

  lemma LevelAtMost(rpm: nat, b: Bucket, at: real)
    ensures Level(rpm, b, at) <= rpm as real
  {
  }

  lemma FirstAllow(rpm: nat, keep: map<string, Bucket>, s: Sys, c: nat, at: real, rest: seq<Step>)
    requires Enabled(s, Allow(c, at)) && Schedule(rpm, Next(rpm, s, Allow(c, at)), rest)
    ensures Schedule(rpm, s, [Allow(c, at)] + rest)
    ensures Answers(rpm, Next(rpm, s, Allow(c, at)), rest)
              != KeepAnswers(rpm, KeepNext(rpm, keep, s, Allow(c, at)), Next(rpm, s, Allow(c, at)), rest) ==>
            Answers(rpm, s, [Allow(c, at)] + rest) != KeepAnswers(rpm, keep, s, [Allow(c, at)] + rest)
  {
    hide Next, KeepNext, Allows;
    var run := [Allow(c, at)] + rest;
    assert run[1..] == rest;
    HeadsAndTails(Allows(rpm, s.all[s.held[c].1], at), Answers(rpm, Next(rpm, s, Allow(c, at)), rest),
                  KeptAnswer(rpm, keep, s.held[c].0, at),
                  KeepAnswers(rpm, KeepNext(rpm, keep, s, Allow(c, at)), Next(rpm, s, Allow(c, at)), rest));
  }

  /** A deletion is quiet if and only if, however the run goes on with quiet deletions, no call is
      ever answered differently from a store that never deletes. A limiter that allows nothing at
      all is the one exception: there nobody can notice anything. */
  lemma DeletionUnseenIffQuiet(rpm: nat, s: Sys, keep: map<string, Bucket>, key: string, at: real)
    requires Sound(rpm, s) && Alike(rpm, s, keep) && Enabled(s, Delete(key, at))
    ensures rpm == 0 || Quiet(rpm, s, Delete(key, at)) <==> Unseen(rpm, keep, Next(rpm, s, Delete(key, at)))
  {
    hide Quiet, Answers, KeepAnswers, Schedule, AllQuiet, Alike, Sound;
    var s' := Next(rpm, s, Delete(key, at));
    if rpm == 0 {
      forall steps: seq<Step> | Schedule(rpm, s', steps)
        ensures Answers(rpm, s', steps) == KeepAnswers(rpm, keep, s', steps)
      {
        NobodyPasses(s', keep, steps);
      }
    } else if Quiet(rpm, s, Delete(key, at)) {
      NextIsSound(rpm, s, Delete(key, at));
      NextIsAlike(rpm, s, keep, Delete(key, at));
      forall steps: seq<Step> | Schedule(rpm, s', steps) && AllQuiet(rpm, s', steps)
        ensures Answers(rpm, s', steps) == KeepAnswers(rpm, keep, s', steps)
      {
        AnswersAgree(rpm, keep, s', steps);
      }
    } else {
      var steps := NoisyIsSeen(rpm, s, keep, key, at);
    }
  }

  // ----- The bound -----

  ghost predicate LetsThrough(rpm: nat, s: Sys, a: Step, key: string)
    requires Enabled(s, a)
  {
    a.Allow? && s.held[a.caller].0 == key && Allows(rpm, s.all[s.held[a.caller].1], a.at)
  }

  /** The calls for the key that a run lets through from instant a to instant b. */
  ghost function Passed(rpm: nat, s: Sys, steps: seq<Step>, key: string, a: real, b: real): nat
    requires Schedule(rpm, s, steps)
    decreases steps
  {
    if steps == [] then 0
    else
      (if a <= steps[0].at <= b && LetsThrough(rpm, s, steps[0], key) then 1 else 0)
      + Passed(rpm, Next(rpm, s, steps[0]), steps[1..], key, a, b)
  }

  lemma {:induction false} PassedOfSum(rpm: nat, s: Sys, first: seq<Step>, second: seq<Step>, key: string, a: real,
                                       b: real)
    requires Schedule(rpm, s, first) && Schedule(rpm, Run(rpm, s, first), second) && Schedule(rpm, s, first + second)
    ensures Passed(rpm, s, first + second, key, a, b)
            == Passed(rpm, s, first, key, a, b) + Passed(rpm, Run(rpm, s, first), second, key, a, b)
    decreases first
  {
    hide Next, Enabled, LetsThrough;
    if first == [] {
      assert first + second == second;
    } else {
      assert (first + second)[0] == first[0] && (first + second)[1..] == first[1..] + second;
      PassedOfSum(rpm, Next(rpm, s, first[0]), first[1..], second, key, a, b);
    }
  }

  lemma {:induction false} NonePastEnd(rpm: nat, s: Sys, steps: seq<Step>, key: string, a: real, b: real)
    requires Schedule(rpm, s, steps) && b < s.now
    ensures Passed(rpm, s, steps, key, a, b) == 0
    decreases steps
  {
    if steps != [] {
      NonePastEnd(rpm, Next(rpm, s, steps[0]), steps[1..], key, a, b);
    }
  }

  /** A step takes a token from a key for each call of the key it lets through, and no other. */
  lemma StepTakes(rpm: nat, s: Sys, a: Step, key: string)
    requires Sound(rpm, s) && Enabled(s, a) && Quiet(rpm, s, a)
    ensures KeyLevel(rpm, Next(rpm, s, a), key, a.at)
            == KeyLevel(rpm, s, key, a.at) - if LetsThrough(rpm, s, a, key) then 1.0 else 0.0
  {
    hide Next, Quiet, Take;
    if a.Allow? && s.held[a.caller].0 == key {
      CallTakes(rpm, s, a, a.at);
      TakeNow(rpm, s.all[s.ids[key]], a.at);
    } else {
      OthersUntouched(rpm, s, a, key, a.at);
    }
  }

  /** Tokens grow with the refill until the bucket is full. */
  lemma KeyGrows(rpm: nat, s: Sys, key: string, at: real)
    requires s.now <= at
    ensures KeyLevel(rpm, s, key, at) == Min(rpm as real, KeyLevel(rpm, s, key, s.now) + Refill(rpm, at - s.now))
  {
    hide Refill;
    RefillMarks(rpm);
    RefillOrder(rpm, 0.0, at - s.now);
    if key in s.ids && s.ids[key] < |s.all| {
      var b := s.all[s.ids[key]];
      RefillSum(rpm, s.now - b.lastRefill, at - s.now);
      assert at - b.lastRefill == (s.now - b.lastRefill) + (at - s.now);
    }
  }

  lemma KeyLevelInRange(rpm: nat, s: Sys, key: string)
    requires Sound(rpm, s)
    ensures 0.0 <= KeyLevel(rpm, s, key, s.now) <= rpm as real
  {
    hide Refill;
    if key in s.ids {
      var b := s.all[s.ids[key]];
      RefillMarks(rpm);
      RefillOrder(rpm, 0.0, s.now - b.lastRefill);
    }
  }

  /** The calls let through up to an instant are paid for by the tokens at the start and the refill since. */
  lemma {:induction false} PassedIsPaid(rpm: nat, s: Sys, steps: seq<Step>, key: string, a: real, b: real)
    requires Sound(rpm, s) && Schedule(rpm, s, steps) && AllQuiet(rpm, s, steps) && s.now <= b
    ensures Passed(rpm, s, steps, key, a, b) as real <= KeyLevel(rpm, s, key, s.now) + Refill(rpm, b - s.now)
    decreases steps
  {
    hide Refill, Quiet, KeyLevel, Sound, LetsThrough;
    RefillMarks(rpm);
    RefillOrder(rpm, 0.0, b - s.now);
    KeyLevelInRange(rpm, s, key);
    if steps != [] {
      var s' := Next(rpm, s, steps[0]);
      if s'.now > b {
        NonePastEnd(rpm, s', steps[1..], key, a, b);
      } else {
        NextIsSound(rpm, s, steps[0]);
        StepTakes(rpm, s, steps[0], key);
        KeyGrows(rpm, s, key, s'.now);
        PassedIsPaid(rpm, s', steps[1..], key, a, b);
        RefillSum(rpm, s'.now - s.now, b - s'.now);
      }
    }
  }

  ghost function Bound(rpm: nat, a: real, b: real): real {
    rpm as real + rpm as real * (b - a) / 60.0
  }

  lemma BoundIsRefill(rpm: nat, a: real, b: real)
    ensures Bound(rpm, a, b) == rpm as real + Refill(rpm, b - a)
  {
  }

  /** Over any run with quiet deletions, a key is let through at most rpm + rpm * (b - a) / 60 times
      from any instant a to any later instant b. */
  lemma {:induction false} RateBound(rpm: nat, s: Sys, steps: seq<Step>, key: string, a: real, b: real)
    requires Sound(rpm, s) && Schedule(rpm, s, steps) && AllQuiet(rpm, s, steps) && a <= b
    ensures Passed(rpm, s, steps, key, a, b) as real <= Bound(rpm, a, b)
    decreases steps
  {
    hide Refill, Quiet, KeyLevel, LetsThrough, Bound;
    BoundIsRefill(rpm, a, b);
    RefillMarks(rpm);
    RefillOrder(rpm, 0.0, b - a);
    if s.now > b {
      NonePastEnd(rpm, s, steps, key, a, b);
    } else if s.now >= a {
      PassedIsPaid(rpm, s, steps, key, a, b);
      KeyLevelInRange(rpm, s, key);
      RefillOrder(rpm, b - s.now, b - a);
    } else if steps != [] {
      if steps[0].at < a {
        NextIsSound(rpm, s, steps[0]);
        RateBound(rpm, Next(rpm, s, steps[0]), steps[1..], key, a, b);
      } else {
        WaitUntil(rpm, s, steps, key, a, b);
        PassedIsPaid(rpm, s.(now := a), steps, key, a, b);
        KeyLevelInRange(rpm, s.(now := a), key);
      }
    }
  }

  /** Nothing happens while time passes. */
  lemma WaitUntil(rpm: nat, s: Sys, steps: seq<Step>, key: string, a: real, b: real)
    requires Sound(rpm, s) && Schedule(rpm, s, steps) && AllQuiet(rpm, s, steps)
    requires steps != [] && s.now <= a <= steps[0].at
    ensures Sound(rpm, s.(now := a)) && Schedule(rpm, s.(now := a), steps) && AllQuiet(rpm, s.(now := a), steps)
    ensures Passed(rpm, s.(now := a), steps, key, a, b) == Passed(rpm, s, steps, key, a, b)
  {
    hide Level, Take;
    assert Next(rpm, s.(now := a), steps[0]) == Next(rpm, s, steps[0]);
  }

  // ----- Deletions that break the bound -----

  /** At this instant of the run the key's bucket was full, or missing. */
  ghost predicate FullAt(rpm: nat, s: Sys, steps: seq<Step>, key: string, a: real)
    requires Schedule(rpm, s, steps)
    decreases steps
  {
    || (s.now <= a && (steps == [] || a <= steps[0].at) && KeyLevel(rpm, s, key, a) == rpm as real)
    || (steps != [] && FullAt(rpm, Next(rpm, s, steps[0]), steps[1..], key, a))
  }

  lemma {:induction false} FullAtEnd(rpm: nat, s: Sys, steps: seq<Step>, key: string, a: real)
    requires Schedule(rpm, s, steps) && Run(rpm, s, steps).now <= a
    requires KeyLevel(rpm, Run(rpm, s, steps), key, a) == rpm as real
    ensures FullAt(rpm, s, steps, key, a)
    decreases steps
  {
    hide KeyLevel;
    if steps != [] {
      FullAtEnd(rpm, Next(rpm, s, steps[0]), steps[1..], key, a);
    }
  }

  /** Since the last instant at which refilling was cut off by a full bucket, or since `full`, the
      calls let through are exactly what a full bucket and the refill have paid for, less the tokens
      that are left. */
  lemma {:induction false} LastFull(rpm: nat, s: Sys, steps: seq<Step>, key: string, full: real, before: nat, b: real)
    returns (a: real)
    requires Sound(rpm, s) && Schedule(rpm, s, steps) && AllQuiet(rpm, s, steps) && Run(rpm, s, steps).now <= b
    requires full <= s.now && before as real == rpm as real + Refill(rpm, s.now - full) - KeyLevel(rpm, s, key, s.now)
    ensures var end := Run(rpm, s, steps);
            var spent := rpm as real + Refill(rpm, end.now - a) - KeyLevel(rpm, end, key, end.now);
            && full <= a <= end.now
            && if a == full then before as real + Passed(rpm, s, steps, key, a, b) as real == spent
               else s.now < a && FullAt(rpm, s, steps, key, a) && Passed(rpm, s, steps, key, a, b) as real == spent
    decreases steps
  {
    hide Refill, Quiet, KeyLevel, Sound, LetsThrough;
    if steps == [] {
      a := full;
    } else {
      var s', t := Next(rpm, s, steps[0]), steps[0].at;
      var n := if LetsThrough(rpm, s, steps[0], key) then 1 else 0;
      NextIsSound(rpm, s, steps[0]);
      RunIsSound(rpm, s', steps[1..]);
      StepTakes(rpm, s, steps[0], key);
      KeyGrows(rpm, s, key, t);
      RefillMarks(rpm);
      if KeyLevel(rpm, s, key, t) == KeyLevel(rpm, s, key, s.now) + Refill(rpm, t - s.now) {
        RefillSum(rpm, s.now - full, t - s.now);
        a := LastFull(rpm, s', steps[1..], key, full, before + n, b);
      } else {
        KeyLevelInRange(rpm, s, key);
        a := LastFull(rpm, s', steps[1..], key, t, n, b);
      }
    }
  }

  lemma LastFullOfRun(rpm: nat, start: real, steps: seq<Step>, key: string, b: real) returns (a: real)
    requires Schedule(rpm, Start(start), steps) && AllQuiet(rpm, Start(start), steps)
             && Run(rpm, Start(start), steps).now <= b
    ensures var end := Run(rpm, Start(start), steps);
            && start <= a <= end.now && FullAt(rpm, Start(start), steps, key, a)
            && Passed(rpm, Start(start), steps, key, a, b) as real
               == rpm as real + Refill(rpm, end.now - a) - KeyLevel(rpm, end, key, end.now)
  {
    hide Refill, Run, Passed, Schedule, AllQuiet, FullAt;
    StartIsSound(rpm, start);
    RefillMarks(rpm);
    a := LastFull(rpm, Start(start), steps, key, start, 0, b);
    StartIsFull(rpm, start, steps, key);
  }

  lemma StartIsFull(rpm: nat, start: real, steps: seq<Step>, key: string)
    requires Schedule(rpm, Start(start), steps)
    ensures FullAt(rpm, Start(start), steps, key, start)
  {
  }

  lemma AllowThen(rpm: nat, s: Sys, c: nat, at: real, rest: seq<Step>, key: string)
    requires Enabled(s, Allow(c, at)) && Schedule(rpm, Next(rpm, s, Allow(c, at)), rest)
    ensures Schedule(rpm, s, [Allow(c, at)] + rest)
    ensures AllQuiet(rpm, Next(rpm, s, Allow(c, at)), rest) ==> AllQuiet(rpm, s, [Allow(c, at)] + rest)
    ensures Passed(rpm, s, [Allow(c, at)] + rest, key, at, at)
            == (if LetsThrough(rpm, s, Allow(c, at), key) then 1 else 0)
              + Passed(rpm, Next(rpm, s, Allow(c, at)), rest, key, at, at)
  {
    hide Next, LetsThrough;
    assert ([Allow(c, at)] + rest)[1..] == rest;
  }

  lemma DeleteThen(rpm: nat, s: Sys, key: string, at: real, more: seq<Step>, a: real)
    requires Enabled(s, Delete(key, at)) && Schedule(rpm, Next(rpm, s, Delete(key, at)), more)
    ensures Schedule(rpm, s, [Delete(key, at)] + more)
    ensures AllQuiet(rpm, s, [Delete(key, at)] + more)
            <==> Quiet(rpm, s, Delete(key, at)) && AllQuiet(rpm, Next(rpm, s, Delete(key, at)), more)
    ensures Passed(rpm, s, [Delete(key, at)] + more, key, a, at)
            == Passed(rpm, Next(rpm, s, Delete(key, at)), more, key, a, at)
  {
    hide Next, Quiet;
    assert ([Delete(key, at)] + more)[1..] == more;
  }

  /** However it goes on, if the other deletions are quiet, a run keeps within the bound. */
  ghost predicate Bounded(rpm: nat, s: Sys, run: seq<Step>) {
    && Schedule(rpm, s, run)
    && forall key, a, b :: a <= b ==> Passed(rpm, s, run, key, a, b) as real <= Bound(rpm, a, b)
  }

  /** After a deletion that is not quiet, some calls take the key over the bound, counted from an
      instant at which its bucket was full. */
  lemma NoisyBreaksBound(rpm: nat, start: real, steps: seq<Step>, key: string, at: real)
    returns (more: seq<Step>, a: real)
    requires rpm > 0 && Schedule(rpm, Start(start), steps) && AllQuiet(rpm, Start(start), steps)
    requires Enabled(Run(rpm, Start(start), steps), Delete(key, at))
             && !Quiet(rpm, Run(rpm, Start(start), steps), Delete(key, at))
    ensures var s' := Next(rpm, Run(rpm, Start(start), steps), Delete(key, at));
            Schedule(rpm, s', more) && AllQuiet(rpm, s', more)
    ensures var run := steps + ([Delete(key, at)] + more);
            && a <= at && FullAt(rpm, Start(start), steps, key, a) && Schedule(rpm, Start(start), run)
            && Passed(rpm, Start(start), run, key, a, at) as real > Bound(rpm, a, at)
  {
    hide Schedule, AllQuiet, Run, Passed, Level, Take, Refill, Bound, FullAt;
    StartIsSound(rpm, start);
    RunIsSound(rpm, Start(start), steps);
    var s, d := Run(rpm, Start(start), steps), Delete(key, at);
    var s' := Next(rpm, s, d);
    RefillMarks(rpm);
    if Level(rpm, s.all[s.ids[key]], at) != rpm as real {
      var c := Above(s'.held.Keys);
      more := Calls(c, key, at, rpm);
      a := LastFullOfRun(rpm, start, steps, key, at);
      AllPass(rpm, s', c, key, at, rpm, a, at);
      KeyGrows(rpm, s, key, at);
      RefillSum(rpm, s.now - a, at - s.now);
      LevelAtMost(rpm, s.all[s.ids[key]], at);
    } else {
      var c :| c in s.held && s.held[c].0 == key;
      var s2 := Next(rpm, s', Allow(c, at));
      AllPass(rpm, s2, c, key, at, rpm, at, at);
      AllowThen(rpm, s', c, at, Calls(c, key, at, rpm), key);
      more := [Allow(c, at)] + Calls(c, key, at, rpm);
      a := at;
      FullAtEnd(rpm, Start(start), steps, key, at);
    }
    BoundIsRefill(rpm, a, at);
    DeleteThen(rpm, s, key, at, more, a);
    RunOfSum(rpm, Start(start), steps, [d] + more);
    PassedOfSum(rpm, Start(start), steps, [d] + more, key, a, at);
  }

  /** A deletion after a run with quiet deletions is quiet if and only if, however the run goes on
      with quiet deletions, no key is let through more often than the bound allows in any stretch of
      time. A limiter that allows nothing is again the one exception. */
  lemma BoundedIffQuiet(rpm: nat, start: real, steps: seq<Step>, key: string, at: real)
    requires Schedule(rpm, Start(start), steps) && AllQuiet(rpm, Start(start), steps)
    requires Enabled(Run(rpm, Start(start), steps), Delete(key, at))
    ensures var s := Run(rpm, Start(start), steps);
            var s' := Next(rpm, s, Delete(key, at));
            rpm == 0 || Quiet(rpm, s, Delete(key, at)) <==>
              forall more: seq<Step> :: Schedule(rpm, s', more) && AllQuiet(rpm, s', more) ==>
                Bounded(rpm, Start(start), steps + ([Delete(key, at)] + more))
  {
    var s := Run(rpm, Start(start), steps);
    var s' := Next(rpm, s, Delete(key, at));
    if rpm == 0 || Quiet(rpm, s, Delete(key, at)) {
      forall more: seq<Step> | Schedule(rpm, s', more) && AllQuiet(rpm, s', more)
        ensures Bounded(rpm, Start(start), steps + ([Delete(key, at)] + more))
      {
        StaysBounded(rpm, start, steps, key, at, more);
      }
    } else {
      hide Schedule, AllQuiet, Run, Passed, Bound, Quiet;
      var more, a := NoisyBreaksBound(rpm, start, steps, key, at);
      assert !Bounded(rpm, Start(start), steps + ([Delete(key, at)] + more));
    }
  }

  lemma StaysBounded(rpm: nat, start: real, steps: seq<Step>, key: string, at: real, more: seq<Step>)
    requires Schedule(rpm, Start(start), steps) && AllQuiet(rpm, Start(start), steps)
    requires Enabled(Run(rpm, Start(start), steps), Delete(key, at))
    requires rpm == 0 || Quiet(rpm, Run(rpm, Start(start), steps), Delete(key, at))
    requires Schedule(rpm, Next(rpm, Run(rpm, Start(start), steps), Delete(key, at)), more)
    requires AllQuiet(rpm, Next(rpm, Run(rpm, Start(start), steps), Delete(key, at)), more)
    ensures Bounded(rpm, Start(start), steps + ([Delete(key, at)] + more))
  {
    hide Schedule, AllQuiet, Run, Passed, Bound, Quiet, Next;
    var run := steps + ([Delete(key, at)] + more);
    DeleteThen(rpm, Run(rpm, Start(start), steps), key, at, more, at);
    RunOfSum(rpm, Start(start), steps, [Delete(key, at)] + more);
    StartIsSound(rpm, start);
    forall k, a, b | a <= b ensures Passed(rpm, Start(start), run, k, a, b) as real <= Bound(rpm, a, b) {
      if rpm == 0 {
        NobodyPasses(Start(start), map[], run);
        ZeroBound(a, b);
      } else {
        RateBound(rpm, Start(start), run, k, a, b);
      }
    }
  }

  lemma ZeroBound(a: real, b: real)
    ensures Bound(0, a, b) == 0.0
  {
  }

  /** What the first step of a run adds to what is known of the rest. */
  lemma StepFirst(rpm: nat, s: Sys, keep: map<string, Bucket>, steps: seq<Step>, s': Sys, keep': map<string, Bucket>)
    requires steps != [] && Enabled(s, steps[0]) && s' == Next(rpm, s, steps[0])
             && keep' == KeepNext(rpm, keep, s, steps[0])
    requires Schedule(rpm, s', steps[1..])
    ensures Schedule(rpm, s, steps)
    ensures steps[0].Allow? ==>
              && Answers(rpm, s, steps)
                 == [Allows(rpm, s.all[s.held[steps[0].caller].1], steps[0].at)] + Answers(rpm, s', steps[1..])
              && KeepAnswers(rpm, keep, s, steps)
                 == [KeptAnswer(rpm, keep, s.held[steps[0].caller].0, steps[0].at)]
                   + KeepAnswers(rpm, keep', s', steps[1..])
    ensures !steps[0].Allow? ==>
              && Answers(rpm, s, steps) == Answers(rpm, s', steps[1..])
              && KeepAnswers(rpm, keep, s, steps) == KeepAnswers(rpm, keep', s', steps[1..])
  {
  }

  lemma NoSteps(rpm: nat, s: Sys, keep: map<string, Bucket>, steps: seq<Step>)
    requires steps == []
    ensures Schedule(rpm, s, steps) && Answers(rpm, s, steps) == [] && KeepAnswers(rpm, keep, s, steps) == []
  {
  }

  /** A caller empties its bucket; ten minutes later the sweep sees it idle, a caller takes it from the
      map, the sweep deletes the key, and a second caller is given a new bucket. */
  const RACE := [
    Get(0, "k", 0.0), Allow(0, 0.0), Inspect("k", 601.0), Get(1, "k", 601.0), Delete("k", 601.0),
    Get(2, "k", 601.0), Allow(1, 601.0), Allow(2, 601.0)]

  /** With one request a minute allowed, all three calls of this run from the empty store are let
      through, the last two at the same instant; a store that never deletes refuses the third. */
  lemma DeletionUnderACaller()
    ensures Schedule(1, Start(0.0), RACE)
    ensures Answers(1, Start(0.0), RACE) == [true, true, true]
    ensures KeepAnswers(1, map[], Start(0.0), RACE) == [true, true, false]
  {
    hide Schedule, Answers, KeepAnswers, Level, Take;
    TakeOne(0.0, Full(1, 0.0));
    RaceGoesOn();
    var s1 := Sys(map["k" := 0], [Full(1, 0.0)], map[0 := ("k", 0)], {}, 0.0);
    var s2 := Sys(map["k" := 0], [SPENT], map[], {}, 0.0);
    var s3 := Sys(map["k" := 0], [SPENT], map[], {"k"}, 601.0);
    assert RACE[1..][1..] == RACE[2..] && RACE[2..][1..] == RACE[3..] && RACE[3..][1..] == RACE[4..];
    StepFirst(1, s3, map["k" := SPENT], RACE[3..], HELD, map["k" := SPENT]);
    StepFirst(1, s2, map["k" := SPENT], RACE[2..], s3, map["k" := SPENT]);
    StepFirst(1, s1, map[], RACE[1..], s2, map["k" := SPENT]);
    StepFirst(1, Start(0.0), map[], RACE, s1, map[]);
  }

  const SPENT := Bucket(0.0, 0.0)

  const HELD := Sys(map["k" := 0], [SPENT], map[1 := ("k", 0)], {"k"}, 601.0)

  lemma RaceGoesOn()
    ensures Schedule(1, HELD, RACE[4..])
    ensures Answers(1, HELD, RACE[4..]) == [true, true]
            && KeepAnswers(1, map["k" := SPENT], HELD, RACE[4..]) == [true, false]
  {
    hide Schedule, Answers, KeepAnswers, Level, Take;
    RaceEnds();
    var s5 := Sys(map[], [SPENT], map[1 := ("k", 0)], {}, 601.0);
    assert RACE[4..][1..] == RACE[5..] && RACE[5..][1..] == RACE[6..];
    StepFirst(1, s5, map["k" := SPENT], RACE[5..], BOTH_HELD, map["k" := SPENT]);
    StepFirst(1, HELD, map["k" := SPENT], RACE[4..], s5, map["k" := SPENT]);
  }

  const BOTH_HELD := Sys(map["k" := 1], [SPENT, Full(1, 601.0)], map[1 := ("k", 0), 2 := ("k", 1)], {}, 601.0)

  lemma RaceEnds()
    ensures Schedule(1, BOTH_HELD, RACE[6..])
    ensures Answers(1, BOTH_HELD, RACE[6..]) == [true, true]
            && KeepAnswers(1, map["k" := SPENT], BOTH_HELD, RACE[6..]) == [true, false]
  {
    hide Schedule, Answers, KeepAnswers, Level, Take;
    var full, spent := Full(1, 601.0), Bucket(0.0, 601.0);
    TakeOne(601.0, SPENT);
    TakeOne(601.0, full);
    TakenOut(spent);
    var s7 := Sys(map["k" := 1], [spent, full], map[2 := ("k", 1)], {}, 601.0);
    var s8 := Sys(map["k" := 1], [spent, spent], map[], {}, 601.0);
    assert RACE[6..][1..] == RACE[7..] && RACE[7..][1..] == RACE[8..];
    NoSteps(1, s8, map["k" := spent], RACE[8..]);
    StepFirst(1, s7, map["k" := spent], RACE[7..], s8, map["k" := spent]);
    StepFirst(1, BOTH_HELD, map["k" := SPENT], RACE[6..], s7, map["k" := spent]);
  }

  /** A full bucket, or one idle for ten minutes, gives its one token. */
  lemma TakeOne(at: real, b: Bucket)
    requires b == Full(1, at) || (b.tokens >= 0.0 && at - b.lastRefill >= IDLE_SECONDS)
    ensures Allows(1, b, at) && Take(1, b, at) == Bucket(0.0, at)
  {
    hide Level;
    if b == Full(1, at) {
      FullIsFull(1, at, at);
    } else {
      IdleIsFull(1, b, at);
    }
  }

  lemma TakenOut(b: Bucket)
    requires b.tokens == 0.0
    ensures !Allows(1, b, b.lastRefill) && Take(1, b, b.lastRefill) == b
  {
    RefillMarks(1);
  }
}
