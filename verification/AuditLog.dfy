/** The audit logger: a buffer that flushes take away whole and give back when a write fails, with
    the lock released in between, and the in-memory store it writes to. */
module AuditLog {
  import opened Outcomes

  /** An event without a timestamp has the zero one. */
  datatype Event = Event(
    id: string, tenant: string, user: string, action: string, resourceType: string, resourceId: string,
    details: Option<string>, timestamp: int)

  const ZERO_TIME := 0
  const DEFAULT_BATCH_SIZE := 100

  /** The most events kept after a failed write, in batches. */
  const KEPT_BATCHES := 10

  function Capacity(batchSize: nat): nat {
    batchSize * KEPT_BATCHES
  }

  /** What the logger fills in from the caller's context and the clock. */
  function Stamped(e: Event, tenant: string, user: string, now: int): Event {
    e.(tenant := if e.tenant == "" then tenant else e.tenant,
       user := if e.user == "" then user else e.user,
       timestamp := if e.timestamp == ZERO_TIME then now else e.timestamp,
       details := if e.details.None? then Some("{}") else e.details)
  }

  /** Stamping fills in what is missing and nothing else: what the event says of itself stays, and whoever
      stamps it again changes nothing. */
  lemma StampedOnce(e: Event, tenant: string, user: string, now: int)
    ensures var s := Stamped(e, tenant, user, now);
            && (e.tenant != "" ==> s.tenant == e.tenant) && (e.tenant == "" ==> s.tenant == tenant)
            && (e.user != "" ==> s.user == e.user) && (e.user == "" ==> s.user == user)
            && (e.timestamp != 0 ==> s.timestamp == e.timestamp) && (e.timestamp == 0 ==> s.timestamp == now)
            && s.details == Some(if e.details.Some? then e.details.value else "{}")
            && (s.id, s.action, s.resourceType, s.resourceId) == (e.id, e.action, e.resourceType, e.resourceId)
    ensures tenant != "" && user != "" && now != 0 ==>
              forall other, someone, later ::
                Stamped(Stamped(e, tenant, user, now), other, someone, later) == Stamped(e, tenant, user, now)
  {
  }

  function Excess<T>(batchSize: nat, events: seq<T>): (n: nat)
    ensures n <= |events|
  {
    if |events| > Capacity(batchSize) then |events| - Capacity(batchSize) else 0
  }

  class AuditLogger {
    const batchSize: nat
    var buffer: seq<Event>

    constructor (size: int)
      ensures batchSize == (if size <= 0 then 100 else size) && buffer == []
    {
      batchSize := if size <= 0 then DEFAULT_BATCH_SIZE else size;
      buffer := [];
    }

    /** Adds an event; the caller goes on to flush if the buffer has reached a batch. */
    method Log(event: Event, tenant: string, user: string, now: int) returns (shouldFlush: bool)
      modifies this
      ensures buffer == old(buffer) + [Stamped(event, tenant, user, now)]
      ensures shouldFlush <==> |buffer| >= batchSize
    {
      var e := event;
      if e.tenant == "" {
        e := e.(tenant := tenant);
      }
      if e.user == "" {
        e := e.(user := user);
      }
      if e.timestamp == ZERO_TIME {
        e := e.(timestamp := now);
      }
      if e.details.None? {
        e := e.(details := Some("{}"));
      }
      buffer := buffer + [e];
      return |buffer| >= batchSize;
    }

    /** The first half of a flush, under the lock. */
    method TakeBuffer() returns (events: seq<Event>)
      modifies this
      ensures events == old(buffer) && buffer == []
    {
      events := buffer;
      buffer := [];
    }

    /** The second half of a flush whose write failed, under the lock again. */
    method PutBack(events: seq<Event>)
      modifies this
      ensures buffer == (events + old(buffer))[Excess(batchSize, events + old(buffer))..]
    {
      buffer := events + buffer;
      if |buffer| > batchSize * KEPT_BATCHES {
        var dropped := |buffer| - batchSize * KEPT_BATCHES;
        buffer := buffer[dropped..];
      }
    }

    /** A flush that nobody interrupts; `ok` says whether the store takes the write. */
    method Flush(store: InMemoryAuditStore, ok: bool)
      modifies this, store
      ensures ok ==> buffer == [] && store.events == old(store.events) + old(buffer)
      ensures !ok ==> buffer == old(buffer)[Excess(batchSize, old(buffer))..] && store.events == old(store.events)
    {
      if |buffer| == 0 {
        return;
      }
      var events := TakeBuffer();
      if ok {
        store.WriteEvents(events);
      } else {
        assert events + buffer == events;
        PutBack(events);
      }
    }
  }

  // ----- Flushes in any interleaving -----

  /** A logged event with its place in the log. */
  datatype Entry = Entry(place: nat, event: Event)

  /** The events still buffered, those of each flush whose write has not returned, those the store
      has, those discarded, and all that were ever logged. */
  datatype Sys = Sys(buffer: seq<Entry>, inflight: seq<seq<Entry>>, stored: seq<Entry>, dropped: seq<Entry>,
                     logged: seq<Entry>)

  datatype Step =
    | Log(event: Event)
    | Begin
    | Written(flush: nat)
    | Failed(flush: nat)

  ghost predicate Enabled(s: Sys, a: Step) {
    (a.Written? || a.Failed?) ==> a.flush < |s.inflight|
  }

  function Without<T>(s: seq<T>, i: nat): seq<T>
    requires i < |s|
  {
    s[..i] + s[i + 1..]
  }

  ghost function Next(batchSize: nat, s: Sys, a: Step): Sys
    requires Enabled(s, a)
  {
    match a
    case Log(e) =>
      var entry := Entry(|s.logged|, e);
      s.(buffer := s.buffer + [entry], logged := s.logged + [entry])
    case Begin =>
      if s.buffer == [] then s else s.(buffer := [], inflight := s.inflight + [s.buffer])
    case Written(f) =>
      s.(inflight := Without(s.inflight, f), stored := s.stored + s.inflight[f])
    case Failed(f) =>
      var all := s.inflight[f] + s.buffer;
      var n := Excess(batchSize, all);
      s.(inflight := Without(s.inflight, f), buffer := all[n..], dropped := s.dropped + all[..n])
  }

  const START := Sys([], [], [], [], [])

  ghost predicate Schedule(batchSize: nat, s: Sys, steps: seq<Step>)
    decreases steps
  {
    steps == [] || (Enabled(s, steps[0]) && Schedule(batchSize, Next(batchSize, s, steps[0]), steps[1..]))
  }

  ghost function Run(batchSize: nat, s: Sys, steps: seq<Step>): Sys
    requires Schedule(batchSize, s, steps)
    decreases steps
  {
    if steps == [] then s else Run(batchSize, Next(batchSize, s, steps[0]), steps[1..])
  }

  // ----- Nothing is lost or duplicated -----

  ghost function All(batches: seq<seq<Entry>>): multiset<Entry> {
    if batches == [] then multiset{} else multiset(batches[0]) + All(batches[1..])
  }

  lemma {:induction false} AllOfSum(a: seq<seq<Entry>>, b: seq<seq<Entry>>)
    ensures All(a + b) == All(a) + All(b)
  {
    if a == [] {
      assert a + b == b;
    } else {
      assert (a + b)[1..] == a[1..] + b;
      AllOfSum(a[1..], b);
    }
  }

  lemma AllFrom(batches: seq<seq<Entry>>, i: nat)
    requires i < |batches|
    ensures All(batches[i..]) == multiset(batches[i]) + All(batches[i + 1..])
  {
    assert batches[i..][1..] == batches[i + 1..];
  }

  lemma AllWithout(batches: seq<seq<Entry>>, i: nat)
    requires i < |batches|
    ensures All(batches) == All(Without(batches, i)) + multiset(batches[i])
  {
    hide All;
    AllOfSum(batches[..i], batches[i + 1..]);
    AllOfSum(batches[..i], batches[i..]);
    AllFrom(batches, i);
    assert batches[..i] + batches[i..] == batches;
  }

  ghost function Accounted(s: Sys): multiset<Entry> {
    multiset(s.stored) + All(s.inflight) + multiset(s.buffer) + multiset(s.dropped)
  }

  ghost predicate Conserved(s: Sys) {
    multiset(s.logged) == Accounted(s)
  }

  lemma FailureConserves(batchSize: nat, s: Sys, f: nat)
    requires f < |s.inflight|
    ensures Accounted(Next(batchSize, s, Failed(f))) == Accounted(s)
  {
    hide All, Excess;
    AllWithout(s.inflight, f);
    var all := s.inflight[f] + s.buffer;
    var n := Excess(batchSize, all);
    var s' := Next(batchSize, s, Failed(f));
    TwoSums(s.inflight[f], s.buffer);
    Halves(all, n);
    TwoSums(s.dropped, all[..n]);
    Regroup(multiset(s.stored), All(s'.inflight), multiset(s.inflight[f]), multiset(s.buffer), multiset(s.dropped),
            multiset(all[..n]), multiset(all[n..]));
  }

  lemma Regroup(stored: multiset<Entry>, others: multiset<Entry>, failed: multiset<Entry>, buffer: multiset<Entry>,
                dropped: multiset<Entry>, oldest: multiset<Entry>, rest: multiset<Entry>)
    requires failed + buffer == oldest + rest
    ensures stored + others + rest + (dropped + oldest) == stored + (others + failed) + buffer + dropped
  {
    assert stored + (others + failed) + buffer + dropped == stored + others + (failed + buffer) + dropped;
  }

  lemma Halves(s: seq<Entry>, n: nat)
    requires n <= |s|
    ensures multiset(s) == multiset(s[..n]) + multiset(s[n..])
  {
    assert s == s[..n] + s[n..];
  }

  lemma TwoSums(a: seq<Entry>, b: seq<Entry>)
    ensures multiset(a + b) == multiset(a) + multiset(b)
  {
  }

  lemma LogConserves(batchSize: nat, s: Sys, e: Event)
    ensures Accounted(Next(batchSize, s, Log(e))) == Accounted(s) + multiset([Entry(|s.logged|, e)])
  {
    hide All;
    TwoSums(s.buffer, [Entry(|s.logged|, e)]);
  }

  lemma BeginConserves(batchSize: nat, s: Sys)
    ensures Accounted(Next(batchSize, s, Begin)) == Accounted(s)
  {
    hide All;
    AllOfSum(s.inflight, [s.buffer]);
    AllOfOne(s.buffer);
  }

  lemma AllOfOne(batch: seq<Entry>)
    ensures All([batch]) == multiset(batch)
  {
    assert [batch][1..] == [];
  }

  lemma WriteConserves(batchSize: nat, s: Sys, f: nat)
    requires f < |s.inflight|
    ensures Accounted(Next(batchSize, s, Written(f))) == Accounted(s)
  {
    hide All;
    AllWithout(s.inflight, f);
    TwoSums(s.stored, s.inflight[f]);
  }

  lemma NextConserves(batchSize: nat, s: Sys, a: Step)
    requires Conserved(s) && Enabled(s, a)
    ensures Conserved(Next(batchSize, s, a))
  {
    hide Accounted, Excess;
    match a
    case Log(e) =>
      LogConserves(batchSize, s, e);
      TwoSums(s.logged, [Entry(|s.logged|, e)]);
    case Begin => BeginConserves(batchSize, s);
    case Written(f) => WriteConserves(batchSize, s, f);
    case Failed(f) => FailureConserves(batchSize, s, f);
  }

  /** Over any interleaving of logging and flushes, the events logged are those stored, in flight,
      buffered or dropped, each once. */
  lemma {:induction false} LoggedIsAccountedFor(batchSize: nat, s: Sys, steps: seq<Step>)
    requires Conserved(s) && Schedule(batchSize, s, steps)
    ensures multiset(Run(batchSize, s, steps).logged) == Accounted(Run(batchSize, s, steps))
    decreases steps
  {
    hide Next;
    if steps != [] {
      NextConserves(batchSize, s, steps[0]);
      LoggedIsAccountedFor(batchSize, Next(batchSize, s, steps[0]), steps[1..]);
    }
  }

  // ----- When events are dropped -----

  ghost function Unsaved(s: Sys): nat {
    |All(s.inflight)| + |s.buffer|
  }

  /** A step drops events exactly when it is a failed write that leaves more than ten batches
      unwritten; it then leaves ten batches. */
  lemma DropsOnlyOverflow(batchSize: nat, s: Sys, a: Step)
    requires Enabled(s, a)
    ensures Next(batchSize, s, a).dropped != s.dropped <==>
              a.Failed? && |s.inflight[a.flush]| + |s.buffer| > 10 * batchSize
    ensures Next(batchSize, s, a).dropped != s.dropped ==> |Next(batchSize, s, a).buffer| == 10 * batchSize
    ensures Next(batchSize, s, a).dropped != s.dropped ==> Unsaved(s) > 10 * batchSize
  {
    if a.Failed? {
      AllWithout(s.inflight, a.flush);
    }
  }

  ghost predicate NeverOverCapacity(batchSize: nat, s: Sys, steps: seq<Step>)
    requires Schedule(batchSize, s, steps)
    decreases steps
  {
    Unsaved(s) <= 10 * batchSize
      && (steps == [] || NeverOverCapacity(batchSize, Next(batchSize, s, steps[0]), steps[1..]))
  }

  /** As long as no more than ten batches are ever unsaved, nothing is dropped, whatever writes fail. */
  lemma {:induction false} NothingDroppedWithinCapacity(batchSize: nat, s: Sys, steps: seq<Step>)
    requires Schedule(batchSize, s, steps) && NeverOverCapacity(batchSize, s, steps)
    ensures Run(batchSize, s, steps).dropped == s.dropped
    decreases steps
  {
    if steps != [] {
      DropsOnlyOverflow(batchSize, s, steps[0]);
      NothingDroppedWithinCapacity(batchSize, Next(batchSize, s, steps[0]), steps[1..]);
    }
  }

  // ----- One flush at a time keeps the order -----

  /** No flush begins before the last one is over. */
  ghost predicate OneAtATime(batchSize: nat, s: Sys, steps: seq<Step>)
    requires Schedule(batchSize, s, steps)
    decreases steps
  {
    steps == [] ||
    ((steps[0].Begin? ==> s.inflight == []) && OneAtATime(batchSize, Next(batchSize, s, steps[0]), steps[1..]))
  }

  ghost function Pending(s: Sys): seq<Entry>
    requires |s.inflight| <= 1
  {
    (if s.inflight == [] then [] else s.inflight[0]) + s.buffer
  }

  /** The events whose fate is the given one. */
  function Pick(events: seq<Entry>, fates: seq<bool>, fate: bool): seq<Entry>
    requires |events| == |fates|
  {
    if events == [] then []
    else (if fates[0] == fate then [events[0]] else []) + Pick(events[1..], fates[1..], fate)
  }

  function Same(n: nat, fate: bool): seq<bool> {
    seq(n, i => fate)
  }

  lemma {:induction false} PickSum(a: seq<Entry>, f: seq<bool>, b: seq<Entry>, g: seq<bool>, fate: bool)
    requires |a| == |f| && |b| == |g|
    ensures Pick(a + b, f + g, fate) == Pick(a, f, fate) + Pick(b, g, fate)
  {
    if a == [] {
      assert a + b == b && f + g == g;
    } else {
      assert (a + b)[1..] == a[1..] + b && (f + g)[1..] == f[1..] + g;
      assert (a + b)[0] == a[0] && (f + g)[0] == f[0];
      PickSum(a[1..], f[1..], b, g, fate);
    }
  }

  lemma {:induction false} PickSame(a: seq<Entry>, fate: bool, wanted: bool)
    ensures Pick(a, Same(|a|, fate), wanted) == if fate == wanted then a else []
  {
    if a != [] {
      assert Same(|a|, fate)[1..] == Same(|a| - 1, fate);
      PickSame(a[1..], fate, wanted);
    }
  }

  /** The oldest events have been stored (true) or dropped (false), in order; the rest are pending. */
  ghost predicate Ordered(s: Sys, fates: seq<bool>) {
    && |s.inflight| <= 1
    && (s.inflight != [] ==> s.inflight[0] != [])
    && |fates| <= |s.logged|
    && Pending(s) == s.logged[|fates|..]
    && s.stored == Pick(s.logged[..|fates|], fates, true)
    && s.dropped == Pick(s.logged[..|fates|], fates, false)
  }

  ghost function NextFates(batchSize: nat, s: Sys, a: Step, fates: seq<bool>): seq<bool>
    requires Enabled(s, a)
  {
    match a
    case Written(f) => fates + Same(|s.inflight[f]|, true)
    case Failed(f) => fates + Same(Excess(batchSize, s.inflight[f] + s.buffer), false)
    case _ => fates
  }

  ghost function Fates(batchSize: nat, s: Sys, steps: seq<Step>, fates: seq<bool>): seq<bool>
    requires Schedule(batchSize, s, steps)
    decreases steps
  {
    if steps == [] then fates
    else Fates(batchSize, Next(batchSize, s, steps[0]), steps[1..], NextFates(batchSize, s, steps[0], fates))
  }

  /** The first n pending events share a fate. */
  lemma Settle(logged: seq<Entry>, fates: seq<bool>, n: nat, fate: bool, wanted: bool)
    requires |fates| + n <= |logged|
    ensures Pick(logged[..|fates| + n], fates + Same(n, fate), wanted)
            == Pick(logged[..|fates|], fates, wanted) + if fate == wanted then logged[|fates|..|fates| + n] else []
  {
    var a, b := logged[..|fates|], logged[|fates|..|fates| + n];
    assert logged[..|fates| + n] == a + b;
    PickSum(a, fates, b, Same(n, fate), wanted);
    PickSame(b, fate, wanted);
  }

  lemma WriteIsOrdered(batchSize: nat, s: Sys, f: nat, fates: seq<bool>)
    requires Ordered(s, fates) && f < |s.inflight|
    ensures Ordered(Next(batchSize, s, Written(f)), fates + Same(|s.inflight[f]|, true))
  {
    hide Pick;
    var n := |s.inflight[f]|;
    Settle(s.logged, fates, n, true, true);
    Settle(s.logged, fates, n, true, false);
    assert Pending(s)[..n] == s.inflight[f] && Pending(s)[n..] == s.buffer;
  }

  lemma FailureIsOrdered(batchSize: nat, s: Sys, f: nat, fates: seq<bool>)
    requires Ordered(s, fates) && f < |s.inflight|
    ensures Ordered(Next(batchSize, s, Failed(f)), fates + Same(Excess(batchSize, s.inflight[f] + s.buffer), false))
  {
    hide Pick, Excess;
    var n := Excess(batchSize, Pending(s));
    assert Pending(s) == s.inflight[f] + s.buffer;
    Settle(s.logged, fates, n, false, true);
    Settle(s.logged, fates, n, false, false);
  }

  lemma NextIsOrdered(batchSize: nat, s: Sys, a: Step, fates: seq<bool>)
    requires Ordered(s, fates) && Enabled(s, a) && (a.Begin? ==> s.inflight == [])
    ensures Ordered(Next(batchSize, s, a), NextFates(batchSize, s, a, fates))
  {
    hide Pick, Excess;
    match a
    case Log(e) =>
      var grown := s.logged + [Entry(|s.logged|, e)];
      assert grown[|fates|..] == s.logged[|fates|..] + [Entry(|s.logged|, e)];
      assert grown[..|fates|] == s.logged[..|fates|];
    case Begin =>
    case Written(f) =>
      hide Ordered;
      WriteIsOrdered(batchSize, s, f, fates);
    case Failed(f) =>
      hide Ordered;
      FailureIsOrdered(batchSize, s, f, fates);
  }

  /** With one flush at a time, stored events keep the order in which they were logged, those
      dropped were the oldest not yet saved, and the rest wait in order: every settled event is
      older than every pending one. */
  lemma {:induction false} OneFlushKeepsOrder(batchSize: nat, s: Sys, steps: seq<Step>, fates: seq<bool>)
    requires Ordered(s, fates) && Schedule(batchSize, s, steps) && OneAtATime(batchSize, s, steps)
    ensures Ordered(Run(batchSize, s, steps), Fates(batchSize, s, steps, fates))
    decreases steps
  {
    hide Next, NextFates, Ordered;
    if steps != [] {
      NextIsOrdered(batchSize, s, steps[0], fates);
      OneFlushKeepsOrder(batchSize, Next(batchSize, s, steps[0]), steps[1..], NextFates(batchSize, s, steps[0], fates));
    }
  }

  lemma StartIsOrdered()
    ensures Ordered(START, []) && Conserved(START) && Numbered(START)
  {
  }

  lemma TwoSteps(batchSize: nat, s: Sys, a: Step, s': Sys, b: Step, s'': Sys)
    requires Enabled(s, a) && s' == Next(batchSize, s, a) && Enabled(s', b) && s'' == Next(batchSize, s', b)
    ensures Schedule(batchSize, s, [a, b]) && Run(batchSize, s, [a, b]) == s''
    ensures OneAtATime(batchSize, s, [a, b]) <==> (a.Begin? ==> s.inflight == []) && (b.Begin? ==> s'.inflight == [])
  {
    hide Next;
    assert [a, b][1..] == [b] && [b][1..] == [];
    RunOfNone(batchSize, s'', [b][1..]);
  }

  lemma RunOfNone(batchSize: nat, s: Sys, steps: seq<Step>)
    requires steps == []
    ensures Schedule(batchSize, s, steps) && Run(batchSize, s, steps) == s && OneAtATime(batchSize, s, steps)
  {
  }

  /** The steps of a last flush whose write succeeds. */
  function Closing(s: Sys): seq<Step> {
    if s.buffer == [] then [] else [Begin, Written(0)]
  }

  /** Closing, when no other flush is going on and the last write succeeds, leaves no event behind:
      what was logged and not dropped is stored, in log order. */
  lemma CloseSettlesEverything(batchSize: nat, steps: seq<Step>)
    requires Schedule(batchSize, START, steps) && OneAtATime(batchSize, START, steps)
    requires Run(batchSize, START, steps).inflight == []
    ensures var closing := Closing(Run(batchSize, START, steps));
            && Schedule(batchSize, Run(batchSize, START, steps), closing)
            && var end, fates := Run(batchSize, Run(batchSize, START, steps), closing),
                                 Fates(batchSize, Run(batchSize, START, steps), closing,
                                   Fates(batchSize, START, steps, []));
               && end.buffer == [] && end.inflight == [] && |fates| == |end.logged|
               && end.stored == Pick(end.logged, fates, true) && end.dropped == Pick(end.logged, fates, false)
  {
    var s, fates := Run(batchSize, START, steps), Fates(batchSize, START, steps, []);
    StartIsOrdered();
    OneFlushKeepsOrder(batchSize, START, steps, []);
    hide Pick, Excess, Run, Schedule, OneAtATime, Fates;
    var closing := Closing(s);
    if closing == [] {
      RunOfNone(batchSize, s, closing);
    } else {
      var begun := Next(batchSize, s, Begin);
      assert begun.inflight == [s.buffer] && Without(begun.inflight, 0) == [];
      TwoSteps(batchSize, s, Begin, begun, Written(0), Next(batchSize, begun, Written(0)));
    }
    OneFlushKeepsOrder(batchSize, s, closing, fates);
    var end := Run(batchSize, s, closing);
    var all := Fates(batchSize, s, closing, fates);
    assert Pending(end) == [];
    assert end.logged[..|all|] == end.logged;
  }

  // ----- Two flushes at once -----

  /** Entries carry their places in the log. */
  ghost predicate Numbered(s: Sys) {
    forall i | 0 <= i < |s.logged| :: s.logged[i].place == i
  }

  /** Entries in the order of the log. */
  ghost predicate InLogOrder(entries: seq<Entry>) {
    forall i, j | 0 <= i < j < |entries| :: entries[i].place < entries[j].place
  }

  lemma {:induction false} RunIsNumbered(batchSize: nat, s: Sys, steps: seq<Step>)
    requires Numbered(s) && Schedule(batchSize, s, steps)
    ensures Numbered(Run(batchSize, s, steps))
    decreases steps
  {
    if steps != [] {
      RunIsNumbered(batchSize, Next(batchSize, s, steps[0]), steps[1..]);
    }
  }

  lemma {:induction false} PickKeepsOrder(entries: seq<Entry>, fates: seq<bool>, fate: bool)
    requires |entries| == |fates| && InLogOrder(entries)
    ensures InLogOrder(Pick(entries, fates, fate))
    ensures forall e :: e in Pick(entries, fates, fate) ==> e in entries
  {
    if entries != [] {
      var rest := Pick(entries[1..], fates[1..], fate);
      PickKeepsOrder(entries[1..], fates[1..], fate);
      forall i | 0 <= i < |rest| ensures entries[0].place < rest[i].place {
        assert rest[i] in entries[1..];
      }
    }
  }

  lemma OrderedIsInLogOrder(s: Sys, fates: seq<bool>)
    requires Ordered(s, fates) && Numbered(s)
    ensures InLogOrder(s.stored) && InLogOrder(s.dropped)
  {
    PickKeepsOrder(s.logged[..|fates|], fates, true);
    PickKeepsOrder(s.logged[..|fates|], fates, false);
  }

  /** A flush that begins while another is in flight can be written first. */
  lemma OverlapReorders(batchSize: nat, s: Sys, fates: seq<bool>)
    requires Ordered(s, fates) && Numbered(s) && s.inflight != [] && s.buffer != []
    ensures var overlap := [Written(1), Written(0)];
            && Schedule(batchSize, Next(batchSize, s, Begin), overlap)
               && OneAtATime(batchSize, Next(batchSize, s, Begin), overlap)
            && Run(batchSize, Next(batchSize, s, Begin), overlap).stored == s.stored + s.buffer + s.inflight[0]
            && !InLogOrder(Run(batchSize, Next(batchSize, s, Begin), overlap).stored)
  {
    hide Pick, Excess, Run, Schedule, OneAtATime;
    var begun := Next(batchSize, s, Begin);
    assert begun.inflight == [s.inflight[0], s.buffer];
    var second := Next(batchSize, begun, Written(1));
    assert second.inflight == [s.inflight[0]];
    TwoSteps(batchSize, begun, Written(1), second, Written(0), Next(batchSize, second, Written(0)));
    var stored := s.stored + s.buffer + s.inflight[0];
    var i, j := |s.stored|, |s.stored| + |s.buffer|;
    assert s.buffer[0] == s.logged[|fates| + |s.inflight[0]|] by {
      assert Pending(s)[|s.inflight[0]|] == s.buffer[0];
    }
    assert s.inflight[0][0] == s.logged[|fates|] by {
      assert Pending(s)[0] == s.inflight[0][0];
    }
    assert stored[i] == s.buffer[0] && stored[j] == s.inflight[0][0];
  }

  /** From a state reached with one flush at a time, beginning a flush keeps the log order of the
      store, however the run goes on with one flush at a time, if and only if no other flush is in
      flight or there is nothing to flush. */
  lemma OrderKeptIffNoOverlap(batchSize: nat, s: Sys, fates: seq<bool>)
    requires Ordered(s, fates) && Numbered(s)
    ensures s.inflight == [] || s.buffer == [] <==>
              forall steps: seq<Step> ::
                (Schedule(batchSize, Next(batchSize, s, Begin), steps)
                 && OneAtATime(batchSize, Next(batchSize, s, Begin), steps)) ==>
                  InLogOrder(Run(batchSize, Next(batchSize, s, Begin), steps).stored)
  {
    var begun := Next(batchSize, s, Begin);
    if s.inflight == [] || s.buffer == [] {
      if s.inflight == [] {
        NextIsOrdered(batchSize, s, Begin, fates);
      }
      forall steps: seq<Step> | Schedule(batchSize, begun, steps) && OneAtATime(batchSize, begun, steps)
        ensures InLogOrder(Run(batchSize, begun, steps).stored)
      {
        hide Ordered, Pick, InLogOrder, Numbered;
        OneFlushKeepsOrder(batchSize, begun, steps, fates);
        RunIsNumbered(batchSize, begun, steps);
        OrderedIsInLogOrder(Run(batchSize, begun, steps), Fates(batchSize, begun, steps, fates));
      }
    } else {
      OverlapReorders(batchSize, s, fates);
    }
  }

  /** The shortest case: an event logged while the first is being written is stored before it. */
  lemma TwoFlushesReorder(batchSize: nat, first: Event, second: Event)
    ensures var steps := [Log(first)] + [Begin, Log(second)];
            && Schedule(batchSize, START, steps) && OneAtATime(batchSize, START, steps)
            && var s := Next(batchSize, Run(batchSize, START, steps), Begin);
               && Schedule(batchSize, s, [Written(1), Written(0)])
               && Run(batchSize, s, [Written(1), Written(0)]).stored == [Entry(1, second), Entry(0, first)]
  {
    hide Run, Schedule, OneAtATime;
    var one, two := Entry(0, first), Entry(1, second);
    var s1, s2, s3 := Sys([one], [], [], [], [one]), Sys([], [[one]], [], [], [one]),
      Sys([two], [[one]], [], [], [one, two]);
    TwoSteps(batchSize, s1, Begin, s2, Log(second), s3);
    StepThen(batchSize, START, Log(first), s1, [Begin, Log(second)]);
    OverlapReorders(batchSize, s3, []);
  }

  lemma StepThen(batchSize: nat, s: Sys, a: Step, s': Sys, rest: seq<Step>)
    requires Enabled(s, a) && s' == Next(batchSize, s, a) && Schedule(batchSize, s', rest)
             && OneAtATime(batchSize, s', rest) && !a.Begin?
    ensures Schedule(batchSize, s, [a] + rest) && OneAtATime(batchSize, s, [a] + rest)
    ensures Run(batchSize, s, [a] + rest) == Run(batchSize, s', rest)
  {
    hide Next;
    assert ([a] + rest)[1..] == rest;
  }

  // ----- The in-memory store -----

  datatype Filter = Filter(
    tenant: string, user: string, action: string, resourceType: string, resourceId: string,
    since: Option<int>, until: Option<int>, limit: int, offset: int)

  predicate Matches(e: Event, f: Filter) {
    && (f.tenant == "" || e.tenant == f.tenant)
    && (f.user == "" || e.user == f.user)
    && (f.action == "" || e.action == f.action)
    && (f.resourceType == "" || e.resourceType == f.resourceType)
    && (f.resourceId == "" || e.resourceId == f.resourceId)
    && (f.since.Some? ==> e.timestamp >= f.since.value)
    && (f.until.Some? ==> e.timestamp <= f.until.value)
  }

  /** The matching events, latest first. */
  function Found(events: seq<Event>, f: Filter): seq<Event> {
    if events == [] then []
    else
      var last := |events| - 1;
      (if Matches(events[last], f) then [events[last]] else []) + Found(events[..last], f)
  }

  function Page(results: seq<Event>, offset: int, limit: int): seq<Event> {
    var rest := if offset <= 0 then results else if offset >= |results| then [] else results[offset..];
    if limit > 0 && |rest| > limit then rest[..limit] else rest
  }

  lemma FoundNothing(f: Filter)
    ensures Found([], f) == []
  {
  }

  lemma FoundStep(events: seq<Event>, n: nat, f: Filter)
    requires n < |events|
    ensures Found(events[..n + 1], f) == (if Matches(events[n], f) then [events[n]] else []) + Found(events[..n], f)
  {
    assert events[..n + 1][..n] == events[..n];
  }

  class InMemoryAuditStore {
    var events: seq<Event>

    constructor ()
      ensures events == []
    {
      events := [];
    }

    method WriteEvents(batch: seq<Event>)
      modifies this
      ensures events == old(events) + batch
    {
      events := events + batch;
    }

    method QueryEvents(f: Filter) returns (page: seq<Event>)
      ensures page == Page(Found(events, f), f.offset, f.limit)
    {
      hide Found, Matches;
      var results: seq<Event> := [];
      var i := |events| - 1;
      assert events[..i + 1] == events;
      while i >= 0
        invariant -1 <= i < |events|
        invariant results + Found(events[..i + 1], f) == Found(events, f)
      {
        var event := events[i];
        FoundStep(events, i, f);
        if Matches(event, f) {
          results := results + [event];
        }
        i := i - 1;
      }
      FoundNothing(f);
      if f.offset > 0 {
        if f.offset >= |results| {
          return [];
        }
        results := results[f.offset..];
      }
      if f.limit > 0 && |results| > f.limit {
        results := results[..f.limit];
      }
      return results;
    }
  }

  lemma PageIsSlice(results: seq<Event>, offset: nat, limit: nat)
    requires limit > 0
    ensures var n := |results|;
            var hi := if offset + limit <= n then offset + limit else n;
            Page(results, offset, limit) == if offset <= n then results[offset..hi] else []
  {
    if offset + limit <= |results| {
      assert results[offset..][..limit] == results[offset..offset + limit];
    }
  }

  /** A limit that is not positive is none, and an offset that is not positive leaves nothing out. */
  lemma PageWithoutBounds(results: seq<Event>, offset: nat, none: int, limit: nat)
    requires none <= 0
    ensures Page(results, offset, none) == if offset <= |results| then results[offset..] else []
    ensures Page(results, none, limit) == Page(results, 0, limit)
  {
  }

  /** Reading on where a page ended continues it: no event is skipped or shown twice. */
  lemma PagesJoin(results: seq<Event>, offset: nat, limit: nat, more: nat)
    requires limit > 0 && more > 0
    ensures Page(results, offset, limit) + Page(results, offset + limit, more) == Page(results, offset, limit + more)
  {
    hide Page;
    PageIsSlice(results, offset, limit);
    PageIsSlice(results, offset + limit, more);
    PageIsSlice(results, offset, limit + more);
  }

  /** Events written later are found first, and only the matching ones are found. */
  lemma {:induction false} FoundOfSum(a: seq<Event>, b: seq<Event>, f: Filter)
    ensures Found(a + b, f) == Found(b, f) + Found(a, f)
    ensures forall e :: e in Found(b, f) <==> e in b && Matches(e, f)
    decreases |b|
  {
    if b == [] {
      assert a + b == a;
    } else {
      var n := |b| - 1;
      assert (a + b)[..|a + b| - 1] == a + b[..n];
      FoundOfSum(a, b[..n], f);
      assert b == b[..n] + [b[n]];
    }
  }

  // ----- What a filter finds -----

  const EVERYTHING := Filter("", "", "", "", "", None, None, 0, 0)

  function Reversed(events: seq<Event>): seq<Event> {
    if events == [] then [] else Reversed(events[1..]) + [events[0]]
  }

  function Keep(events: seq<Event>, wanted: Event -> bool): seq<Event> {
    if events == [] then []
    else (if wanted(events[0]) then [events[0]] else []) + Keep(events[1..], wanted)
  }

  lemma {:induction false} ReversedFront(events: seq<Event>)
    requires events != []
    ensures var n := |events| - 1; Reversed(events) == [events[n]] + Reversed(events[..n])
  {
    var n := |events| - 1;
    if n > 0 {
      ReversedFront(events[1..]);
      assert events[1..][..n - 1] == events[..n][1..];
    } else {
      assert events[1..] == [] && events[..n] == [];
    }
  }

  /** A filter that asks for nothing finds all events, the latest first. */
  lemma {:induction false} EverythingIsFound(events: seq<Event>)
    ensures Found(events, EVERYTHING) == Reversed(events)
  {
    if events != [] {
      EverythingIsFound(events[..|events| - 1]);
      ReversedFront(events);
    }
  }

  /** The second filter wants what the first one does, and one thing more. */
  ghost predicate Narrows(f: Filter, g: Filter, wanted: Event -> bool) {
    forall e :: Matches(e, g) <==> Matches(e, f) && wanted(e)
  }

  lemma {:induction false} NarrowedKeeps(events: seq<Event>, f: Filter, g: Filter, wanted: Event -> bool)
    requires Narrows(f, g, wanted)
    ensures Found(events, g) == Keep(Found(events, f), wanted)
  {
    hide Matches;
    if events != [] {
      var n := |events| - 1;
      NarrowedKeeps(events[..n], f, g, wanted);
      var rest := Found(events[..n], f);
      assert ([events[n]] + rest)[1..] == rest;
      assert [] + rest == rest;
    }
  }

  /** Each demand that is added to a filter keeps just the events that meet it, in the order in which they
      were found. */
  lemma OwnersNarrow(events: seq<Event>, f: Filter, x: string)
    ensures f.tenant == "" && x != "" ==>
              Found(events, f.(tenant := x)) == Keep(Found(events, f), (e: Event) => e.tenant == x)
    ensures f.user == "" && x != "" ==>
              Found(events, f.(user := x)) == Keep(Found(events, f), (e: Event) => e.user == x)
    ensures f.action == "" && x != "" ==>
              Found(events, f.(action := x)) == Keep(Found(events, f), (e: Event) => e.action == x)
  {
    hide Found, Keep;
    if f.tenant == "" && x != "" {
      NarrowedKeeps(events, f, f.(tenant := x), (e: Event) => e.tenant == x);
    }
    if f.user == "" && x != "" {
      NarrowedKeeps(events, f, f.(user := x), (e: Event) => e.user == x);
    }
    if f.action == "" && x != "" {
      NarrowedKeeps(events, f, f.(action := x), (e: Event) => e.action == x);
    }
  }

  /** So do the demands on the resource. */
  lemma ResourcesNarrow(events: seq<Event>, f: Filter, x: string)
    ensures f.resourceType == "" && x != "" ==>
              Found(events, f.(resourceType := x)) == Keep(Found(events, f), (e: Event) => e.resourceType == x)
    ensures f.resourceId == "" && x != "" ==>
              Found(events, f.(resourceId := x)) == Keep(Found(events, f), (e: Event) => e.resourceId == x)
  {
    hide Found, Keep;
    if f.resourceType == "" && x != "" {
      NarrowedKeeps(events, f, f.(resourceType := x), (e: Event) => e.resourceType == x);
    }
    if f.resourceId == "" && x != "" {
      NarrowedKeeps(events, f, f.(resourceId := x), (e: Event) => e.resourceId == x);
    }
  }

  /** And the bounds of time, which are included. */
  lemma TimesNarrow(events: seq<Event>, f: Filter, t: int)
    ensures f.since == None ==>
              Found(events, f.(since := Some(t))) == Keep(Found(events, f), (e: Event) => e.timestamp >= t)
    ensures f.until == None ==>
              Found(events, f.(until := Some(t))) == Keep(Found(events, f), (e: Event) => e.timestamp <= t)
  {
    hide Found, Keep;
    if f.since == None {
      NarrowedKeeps(events, f, f.(since := Some(t)), (e: Event) => e.timestamp >= t);
    }
    if f.until == None {
      NarrowedKeeps(events, f, f.(until := Some(t)), (e: Event) => e.timestamp <= t);
    }
  }
}
