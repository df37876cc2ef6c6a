/** Record batching of the message handler. Each critical section under the handler's lock is one
    step; the lock is released while a batch is handed to the flush callback, so steps of other
    threads, and timer callbacks that were already on their way, come in between. */
module MessageBatching {
  import opened Outcomes
  import opened Sequences

  /** A record: its stream, namespace and raw data. */
  datatype Record = Record(stream: string, namespace: string, data: string)

  datatype Config = Config(batchSize: int, timeout: int, hasFlush: bool)

  /** The handler's fields; armed holds the runtime's timers that have neither fired nor been stopped. */
  datatype Handler = Handler(buf: seq<Record>, timer: Option<nat>, armed: set<nat>, nextTimer: nat,
                                recordCount: nat, errorCount: nat)

  predicate Batching(cfg: Config) {
    cfg.hasFlush && cfg.batchSize > 0
  }

  // ----- The critical sections -----

  /** flushBatchLocked up to the release of the lock: the batch to hand over, if any. */
  function Cut(cfg: Config, h: Handler): (Handler, Option<seq<Record>>) {
    if !cfg.hasFlush || h.buf == [] then (h, None)
    else
      var armed := if h.timer.Some? then h.armed - {h.timer.value} else h.armed;
      (h.(buf := [], timer := None, armed := armed), Some(h.buf))
  }

  function Arm(h: Handler): Handler {
    h.(timer := Some(h.nextTimer), armed := h.armed + {h.nextTimer}, nextTimer := h.nextTimer + 1)
  }

  function TakeRecord(cfg: Config, h: Handler, r: Record): (Handler, Option<seq<Record>>) {
    var counted := h.(recordCount := h.recordCount + 1);
    if !Batching(cfg) then (counted, None)
    else
      var grown := counted.(buf := h.buf + [r]);
      if |grown.buf| >= cfg.batchSize then Cut(cfg, grown)
      else if grown.timer.None? && cfg.timeout > 0 then (Arm(grown), None)
      else (grown, None)
  }

  class MessageHandler {
    const cfg: Config
    var batchBuf: seq<Record>
    var batchTimer: Option<nat>
    var armed: set<nat>
    var nextTimer: nat
    var recordCount: nat
    var errorCount: nat

    constructor (cfg: Config)
      ensures this.cfg == cfg && Fields() == Handler([], None, {}, 0, 0, 0)
    {
      this.cfg := cfg;
      batchBuf, batchTimer, armed, nextTimer := [], None, {}, 0;
      recordCount, errorCount := 0, 0;
    }

    ghost function Fields(): Handler
      reads this
    {
      Handler(batchBuf, batchTimer, armed, nextTimer, recordCount, errorCount)
    }

    /** The part under the lock before the callback; batch is what the callback will be given. */
    method FlushBatchLocked() returns (batch: Option<seq<Record>>)
      modifies this
      ensures (Fields(), batch) == Cut(cfg, old(Fields()))
    {
      if !cfg.hasFlush || |batchBuf| == 0 {
        return None;
      }
      if batchTimer.Some? {
        armed := armed - {batchTimer.value};
        batchTimer := None;
      }
      batch := Some(batchBuf);
      batchBuf := [];
    }

    /** direct is the record to pass to onRecord when batching is off. */
    method HandleRecord(record: Option<Record>) returns (ok: bool, batch: Option<seq<Record>>, direct: Option<Record>)
      modifies this
      ensures ok <==> record.Some?
      ensures !ok ==> Fields() == old(Fields()).(errorCount := old(errorCount) + 1) && batch == None && direct == None
      ensures ok ==> (Fields(), batch) == TakeRecord(cfg, old(Fields()), record.value)
      ensures ok ==> direct == if Batching(cfg) then None else record
    {
      if record.None? {
        errorCount := errorCount + 1;
        return false, None, None;
      }
      recordCount := recordCount + 1;
      if cfg.hasFlush && cfg.batchSize > 0 {
        batchBuf := batchBuf + [record.value];
        batch := None;
        if |batchBuf| >= cfg.batchSize {
          batch := FlushBatchLocked();
        } else if batchTimer.None? && cfg.timeout > 0 {
          batchTimer := Some(nextTimer);
          armed := armed + {nextTimer};
          nextTimer := nextTimer + 1;
        }
        return true, batch, None;
      }
      return true, None, record;
    }

    /** Routes messages up to the first without a record, with no other thread in between: the
        batches cut, then the buffer, are what was buffered before and then the records routed.
        All batches are full, but for the last one of a clean end, which flushes the rest. */
    method ProcessChannel(messages: seq<Option<Record>>) returns (ok: bool, batches: seq<seq<Record>>)
      modifies this
      ensures ok <==> |Leading(messages)| == |messages|
      ensures Batching(cfg) ==> Concat(batches) + batchBuf == old(batchBuf) + Leading(messages)
      ensures Batching(cfg) && ok ==> batchBuf == []
      ensures Batching(cfg) && |old(batchBuf)| < cfg.batchSize ==>
                && |batchBuf| < cfg.batchSize
                && forall i | 0 <= i < |batches| ::
                     if ok && i == |batches| - 1 then 0 < |batches[i]| <= cfg.batchSize
                     else |batches[i]| == cfg.batchSize
      ensures recordCount == old(recordCount) + |Leading(messages)|
      ensures errorCount == old(errorCount) + if ok then 0 else 1
    {
      hide Concat, Leading, TakeRecord, Cut, Routed;
      batches := [];
      ghost var start := Fields();
      NothingRouted(cfg, start, messages);
      for i := 0 to |messages|
        invariant |Leading(messages[..i])| == i && errorCount == start.errorCount
        invariant recordCount == start.recordCount + i
        invariant Batching(cfg) ==> Routed(cfg, start, Leading(messages[..i]), batches, batchBuf)
      {
        ghost var before := Fields();
        var routed, batch, _ := HandleRecord(messages[i]);
        LeadingNext(messages, i);
        if !routed {
          RoutedFull(cfg, start, Leading(messages), batches, batchBuf);
          return false, batches;
        }
        RoutedOne(cfg, start, Leading(messages[..i]), batches, before, messages[i].value);
        if batch.Some? {
          batches := batches + [batch.value];
        }
      }
      assert messages[..|messages|] == messages;
      ghost var rest := Fields();
      var batch := FlushBatchLocked();
      RoutedFlush(cfg, start, Leading(messages), batches, rest);
      if batch.Some? {
        batches := batches + [batch.value];
      }
      return true, batches;
    }
  }

  /** The batches cut and the buffer hold what was buffered and then the records; if the buffer was not
      full to begin with, the batches are full and the buffer is not. */
  ghost predicate Routed(cfg: Config, start: Handler, records: seq<Record>, batches: seq<seq<Record>>,
                         buf: seq<Record>)
  {
    && Concat(batches) + buf == start.buf + records
    && (|start.buf| < cfg.batchSize ==>
          |buf| < cfg.batchSize && forall j | 0 <= j < |batches| :: |batches[j]| == cfg.batchSize)
  }

  lemma NothingRouted(cfg: Config, start: Handler, messages: seq<Option<Record>>)
    ensures Leading(messages[..0]) == [] && Routed(cfg, start, Leading(messages[..0]), [], start.buf)
  {
  }

  lemma RoutedFull(cfg: Config, start: Handler, records: seq<Record>, batches: seq<seq<Record>>, buf: seq<Record>)
    ensures Batching(cfg) && Routed(cfg, start, records, batches, buf) ==>
              && Concat(batches) + buf == start.buf + records
              && (|start.buf| < cfg.batchSize ==>
                    |buf| < cfg.batchSize && forall j | 0 <= j < |batches| :: |batches[j]| == cfg.batchSize)
  {
  }

  lemma RoutedOne(cfg: Config, start: Handler, records: seq<Record>, batches: seq<seq<Record>>, h: Handler, r: Record)
    requires Batching(cfg) ==> Routed(cfg, start, records, batches, h.buf)
    ensures var (h', batch) := TakeRecord(cfg, h, r);
            && h'.recordCount == h.recordCount + 1 && h'.errorCount == h.errorCount
            && (Batching(cfg) ==>
                  Routed(cfg, start, records + [r], if batch.Some? then batches + [batch.value] else batches, h'.buf))
  {
    hide Concat;
    CutInOrder(batches, h.buf + [r]);
    assert Concat(batches) + (h.buf + [r]) == Concat(batches) + h.buf + [r];
    assert start.buf + (records + [r]) == start.buf + records + [r];
  }

  lemma RoutedFlush(cfg: Config, start: Handler, records: seq<Record>, batches: seq<seq<Record>>, h: Handler)
    ensures var (h', batch) := Cut(cfg, h);
            var all := if batch.Some? then batches + [batch.value] else batches;
            && h'.recordCount == h.recordCount && h'.errorCount == h.errorCount
            && (Batching(cfg) && Routed(cfg, start, records, batches, h.buf) ==>
                  && Concat(all) + h'.buf == start.buf + records && h'.buf == []
                  && (|start.buf| < cfg.batchSize ==>
                        forall i | 0 <= i < |all| ::
                          if i == |all| - 1 then 0 < |all[i]| <= cfg.batchSize else |all[i]| == cfg.batchSize))
  {
    hide Concat;
    CutInOrder(batches, h.buf);
  }

  /** The records before the first message without one. */
  ghost function Leading(messages: seq<Option<Record>>): seq<Record> {
    if messages == [] || messages[0].None? then [] else [messages[0].value] + Leading(messages[1..])
  }

  lemma {:induction false} LeadingNext(messages: seq<Option<Record>>, i: nat)
    requires i < |messages| && |Leading(messages[..i])| == i
    ensures messages[i].Some? ==> Leading(messages[..i + 1]) == Leading(messages[..i]) + [messages[i].value]
    ensures messages[i].None? ==> Leading(messages) == Leading(messages[..i])
  {
    if i > 0 {
      assert messages[..i][1..] == messages[1..][..i - 1];
      assert messages[..i + 1][1..] == messages[1..][..i];
      LeadingNext(messages[1..], i - 1);
    }
  }

  // ----- All interleavings -----

  /** The handler among its threads: fired timers whose callback has not yet taken the lock, batches
      inside the callback and past it; and, for the statements, the records in arrival order, the
      batches in the order they are cut, and the records passed on unbatched. */
  datatype Sys = Sys(h: Handler, fired: set<nat>, flushing: multiset<seq<Record>>, flushed: multiset<seq<Record>>,
                        arrived: seq<Record>, cuts: seq<seq<Record>>, passed: seq<Record>)

  datatype Step =
    | RouteRecord(record: Record)
    | RouteMissing
    | ManualFlush
    | TimerFires(id: nat)
    | TimerCallback(id: nat)
    | CallbackReturns(batch: seq<Record>)

  ghost predicate Enabled(s: Sys, a: Step) {
    match a
    case TimerFires(id) => id in s.h.armed
    case TimerCallback(id) => id in s.fired
    case CallbackReturns(batch) => batch in s.flushing
    case _ => true
  }

  ghost function HandOver(s: Sys, h: Handler, batch: Option<seq<Record>>): Sys {
    match batch
    case None => s.(h := h)
    case Some(b) => s.(h := h, flushing := s.flushing + multiset{b}, cuts := s.cuts + [b])
  }

  ghost function Next(cfg: Config, s: Sys, a: Step): Sys {
    match a
    case RouteRecord(r) =>
      var (h, batch) := TakeRecord(cfg, s.h, r);
      HandOver(s, h, batch).(arrived := s.arrived + [r], passed := if Batching(cfg) then s.passed else s.passed + [r])
    case RouteMissing => s.(h := s.h.(errorCount := s.h.errorCount + 1))
    case ManualFlush =>
      var (h, batch) := Cut(cfg, s.h);
      HandOver(s, h, batch)
    case TimerFires(id) => s.(h := s.h.(armed := s.h.armed - {id}), fired := s.fired + {id})
    case TimerCallback(id) =>
      var (h, batch) := Cut(cfg, s.h);
      HandOver(s, h, batch).(fired := s.fired - {id})
    case CallbackReturns(b) => s.(flushing := s.flushing - multiset{b}, flushed := s.flushed + multiset{b})
  }

  ghost function Init(): Sys {
    Sys(Handler([], None, {}, 0, 0, 0), {}, multiset{}, multiset{}, [], [], [])
  }

  ghost function Run(cfg: Config, steps: seq<Step>): Sys {
    if steps == [] then Init() else Next(cfg, Run(cfg, steps[..|steps| - 1]), steps[|steps| - 1])
  }

  /** A schedule: each step is enabled where it is taken. */
  ghost predicate Schedule(cfg: Config, steps: seq<Step>) {
    steps == [] ||
    (Schedule(cfg, steps[..|steps| - 1]) && Enabled(Run(cfg, steps[..|steps| - 1]), steps[|steps| - 1]))
  }

  // ----- What holds whenever the lock is free -----

  /** Nothing is lost, doubled or reordered: the batches as cut, then the buffer, are the arrivals. */
  ghost predicate InOrder(cfg: Config, s: Sys) {
    if Batching(cfg) then Concat(s.cuts) + s.h.buf == s.arrived && s.passed == []
    else s.passed == s.arrived && s.h.buf == [] && s.cuts == []
  }

  ghost predicate Sized(cfg: Config, s: Sys) {
    && (Batching(cfg) ==> |s.h.buf| < cfg.batchSize)
    && forall i :: 0 <= i < |s.cuts| ==> 1 <= |s.cuts[i]| <= cfg.batchSize
  }

  /** Each batch cut is handed to the callback exactly once. */
  ghost predicate HandedOver(s: Sys) {
    multiset(s.cuts) == s.flushing + s.flushed
  }

  /** With a timeout, the timer field is set just while records wait, its callback is still to
      come, and no other timer is armed. Stale callbacks of stopped timers may be around. */
  ghost predicate Timed(cfg: Config, s: Sys) {
    && (s.h.timer.Some? ==>
          (s.h.timer.value in s.h.armed || s.h.timer.value in s.fired) && Batching(cfg) && cfg.timeout > 0)
    && (Batching(cfg) && cfg.timeout > 0 ==> (s.h.timer.Some? <==> s.h.buf != []))
    && (forall t :: t in s.h.armed ==> s.h.timer == Some(t) && t < s.h.nextTimer && t !in s.fired)
    && (forall t :: t in s.fired ==> t < s.h.nextTimer)
  }

  ghost predicate Inv(cfg: Config, s: Sys) {
    InOrder(cfg, s) && Sized(cfg, s) && HandedOver(s) && Timed(cfg, s)
  }

  lemma NextKeepsOrder(cfg: Config, s: Sys, a: Step)
    requires InOrder(cfg, s)
    ensures InOrder(cfg, Next(cfg, s, a))
  {
    hide Concat;
    var buf := s.h.buf;
    CutInOrder(s.cuts, buf);
    match a
    case RouteRecord(r) =>
      CutInOrder(s.cuts, buf + [r]);
      assert Concat(s.cuts) + (buf + [r]) == Concat(s.cuts) + buf + [r];
    case _ =>
  }

  lemma CutInOrder(cuts: seq<seq<Record>>, buf: seq<Record>)
    ensures Concat(cuts + [buf]) + [] == Concat(cuts) + buf
  {
    ConcatOne(cuts, buf);
  }

  ghost predicate SizedCut(cfg: Config, t: (Handler, Option<seq<Record>>)) {
    && (Batching(cfg) ==> |t.0.buf| < cfg.batchSize)
    && (t.1.Some? ==> 1 <= |t.1.value| <= cfg.batchSize)
  }

  lemma CutIsSized(cfg: Config, h: Handler)
    requires Batching(cfg) ==> |h.buf| <= cfg.batchSize
    requires !Batching(cfg) ==> h.buf == []
    ensures SizedCut(cfg, Cut(cfg, h))
  {
  }

  lemma TakenIsSized(cfg: Config, h: Handler, r: Record)
    requires Batching(cfg) ==> |h.buf| < cfg.batchSize
    ensures SizedCut(cfg, TakeRecord(cfg, h, r))
  {
    hide Cut;
    var grown := h.(recordCount := h.recordCount + 1, buf := h.buf + [r]);
    if Batching(cfg) {
      CutIsSized(cfg, grown);
    }
  }

  lemma HandOverIsSized(cfg: Config, s: Sys, t: (Handler, Option<seq<Record>>))
    requires Sized(cfg, s) && SizedCut(cfg, t)
    ensures Sized(cfg, HandOver(s, t.0, t.1))
  {
  }

  lemma NextKeepsSizes(cfg: Config, s: Sys, a: Step)
    requires Sized(cfg, s) && InOrder(cfg, s)
    ensures Sized(cfg, Next(cfg, s, a))
  {
    hide Cut, TakeRecord, Concat, HandOver;
    match a
    case RouteRecord(r) =>
      TakenIsSized(cfg, s.h, r);
      HandOverIsSized(cfg, s, TakeRecord(cfg, s.h, r));
    case ManualFlush =>
      CutIsSized(cfg, s.h);
      HandOverIsSized(cfg, s, Cut(cfg, s.h));
    case TimerCallback(_) =>
      CutIsSized(cfg, s.h);
      HandOverIsSized(cfg, s, Cut(cfg, s.h));
    case _ =>
  }

  lemma NextKeepsHandedOver(cfg: Config, s: Sys, a: Step)
    requires HandedOver(s) && Enabled(s, a)
    ensures HandedOver(Next(cfg, s, a))
  {
    hide Arm;
  }

  lemma RouteKeepsTimed(cfg: Config, s: Sys, r: Record)
    requires Timed(cfg, s) && (!Batching(cfg) ==> s.h.buf == [])
    ensures Timed(cfg, Next(cfg, s, RouteRecord(r)))
  {
  }

  lemma NextKeepsTimed(cfg: Config, s: Sys, a: Step)
    requires Timed(cfg, s) && Enabled(s, a) && (!Batching(cfg) ==> s.h.buf == [])
    ensures Timed(cfg, Next(cfg, s, a))
  {
    hide TakeRecord, Arm;
    if a.RouteRecord? {
      RouteKeepsTimed(cfg, s, a.record);
    }
  }

  lemma NextKeepsInv(cfg: Config, s: Sys, a: Step)
    requires Inv(cfg, s) && Enabled(s, a)
    ensures Inv(cfg, Next(cfg, s, a))
  {
    hide Next, Enabled, Timed, Sized, HandedOver;
    NextKeepsOrder(cfg, s, a);
    NextKeepsSizes(cfg, s, a);
    NextKeepsHandedOver(cfg, s, a);
    NextKeepsTimed(cfg, s, a);
  }

  lemma InitHasInv(cfg: Config)
    ensures Inv(cfg, Init())
  {
  }

  /** Every reachable state keeps arrivals in order, batches within size, hands each batch over
      once, and never leaves a record without a pending timer callback. */
  lemma {:induction false} RunsKeepInv(cfg: Config, steps: seq<Step>)
    requires Schedule(cfg, steps)
    ensures Inv(cfg, Run(cfg, steps))
  {
    hide Next, Enabled, Inv, Init;
    if steps == [] {
      InitHasInv(cfg);
    } else {
      var n := |steps| - 1;
      RunsKeepInv(cfg, steps[..n]);
      NextKeepsInv(cfg, Run(cfg, steps[..n]), steps[n]);
    }
  }

  /** No record is stranded: when records wait, the timer's callback is pending, and running it
      cuts a batch with all of them. */
  lemma PendingCallbackEmptiesBuffer(cfg: Config, steps: seq<Step>) returns (id: nat)
    requires Schedule(cfg, steps) && Batching(cfg) && cfg.timeout > 0 && Run(cfg, steps).h.buf != []
    ensures var s := Run(cfg, steps);
            id in s.fired || (id in s.h.armed && id in Next(cfg, s, TimerFires(id)).fired)
    ensures var s := Run(cfg, steps);
            var s' := Next(cfg, if id in s.fired then s else Next(cfg, s, TimerFires(id)), TimerCallback(id));
            s'.h.buf == [] && Concat(s'.cuts) == s.arrived
  {
    hide Run, Schedule, Sized, HandedOver, Concat;
    var s := Run(cfg, steps);
    RunsKeepInv(cfg, steps);
    id := s.h.timer.value;
    CutInOrder(s.cuts, s.h.buf);
    assert Concat(s.cuts + [s.h.buf]) + [] == Concat(s.cuts + [s.h.buf]);
  }

  /** When the channel closes cleanly, the last flush leaves every record in some batch. */
  lemma CleanCloseDeliversAll(cfg: Config, steps: seq<Step>)
    requires Batching(cfg) && steps != [] && steps[|steps| - 1] == ManualFlush && Schedule(cfg, steps)
    ensures var s := Run(cfg, steps); s.h.buf == [] && Concat(s.cuts) == s.arrived
  {
    hide Concat, Next, Sized, HandedOver, Timed, InOrder;
    RunsKeepInv(cfg, steps[..|steps| - 1]);
    FlushDelivers(cfg, Run(cfg, steps[..|steps| - 1]));
  }

  lemma FlushDelivers(cfg: Config, s: Sys)
    requires Batching(cfg) && InOrder(cfg, s)
    ensures var s' := Next(cfg, s, ManualFlush);
            s'.h.buf == [] && Concat(s'.cuts) == s'.arrived
  {
    hide Concat;
    CutInOrder(s.cuts, s.h.buf);
    assert Concat(s.cuts + [s.h.buf]) + [] == Concat(s.cuts + [s.h.buf]);
    assert Concat(s.cuts) + [] == Concat(s.cuts);
  }

  // ----- What a run keeps, outright -----

  ghost function RecordsOf(steps: seq<Step>): seq<Record> {
    if steps == [] then []
    else RecordsOf(steps[..|steps| - 1]) + match steps[|steps| - 1] case RouteRecord(r) => [r] case _ => []
  }

  ghost function MissingOf(steps: seq<Step>): nat {
    if steps == [] then 0 else MissingOf(steps[..|steps| - 1]) + if steps[|steps| - 1].RouteMissing? then 1 else 0
  }

  lemma {:induction false} CountsOfRun(cfg: Config, steps: seq<Step>)
    ensures var s := Run(cfg, steps);
            && s.arrived == RecordsOf(steps)
            && s.h.recordCount == |RecordsOf(steps)| && s.h.errorCount == MissingOf(steps)
  {
    hide Next;
    if steps != [] {
      var n := |steps| - 1;
      CountsOfRun(cfg, steps[..n]);
      StepCounts(cfg, Run(cfg, steps[..n]), steps[n]);
    }
  }

  lemma StepCounts(cfg: Config, s: Sys, a: Step)
    ensures var s' := Next(cfg, s, a);
            && s'.arrived == (match a case RouteRecord(r) => s.arrived + [r] case _ => s.arrived)
            && s'.h.recordCount == s.h.recordCount + (if a.RouteRecord? then 1 else 0)
            && s'.h.errorCount == s.h.errorCount + (if a.RouteMissing? then 1 else 0)
  {
    hide Cut, Arm, TakeRecord;
    CutCounts(cfg, s.h);
    if a.RouteRecord? {
      TakeCounts(cfg, s.h, a.record);
    }
  }

  lemma CutCounts(cfg: Config, h: Handler)
    ensures Cut(cfg, h).0.recordCount == h.recordCount && Cut(cfg, h).0.errorCount == h.errorCount
  {
  }

  lemma TakeCounts(cfg: Config, h: Handler, r: Record)
    ensures var h' := TakeRecord(cfg, h, r).0;
            h'.recordCount == h.recordCount + 1 && h'.errorCount == h.errorCount
  {
  }

  /** With batching, the batches in the order of their cutting and then the buffer are the records routed so
      far, in their order; batches have one to batchSize records, the buffer has fewer, and each batch is
      inside the callback or past it. Without, all records are passed on and no batch is ever cut. Records and
      messages without one are counted. */
  lemma WhatRunsKeep(cfg: Config, steps: seq<Step>)
    requires Schedule(cfg, steps)
    ensures var s, records := Run(cfg, steps), RecordsOf(steps);
            && (if cfg.hasFlush && cfg.batchSize > 0 then
                  && Concat(s.cuts) + s.h.buf == records && |s.h.buf| < cfg.batchSize && s.passed == []
                  && forall b :: b in s.cuts ==> 1 <= |b| <= cfg.batchSize
                else s.passed == records && s.cuts == [] && s.h.buf == [])
            && multiset(s.cuts) == s.flushing + s.flushed
            && s.h.recordCount == |records| && s.h.errorCount == MissingOf(steps)
  {
    hide Run, Schedule, Timed, Concat, RecordsOf, MissingOf;
    RunsKeepInv(cfg, steps);
    CountsOfRun(cfg, steps);
  }

  function RouteAll(records: seq<Record>): seq<Step> {
    seq(|records|, i requires 0 <= i < |records| => RouteRecord(records[i]))
  }

  /** Records can always be routed one after the other. */
  lemma {:induction false} RoutedAlone(cfg: Config, records: seq<Record>)
    ensures Schedule(cfg, RouteAll(records)) && RecordsOf(RouteAll(records)) == records
  {
    hide Run;
    if records != [] {
      var n := |records| - 1;
      RoutedAlone(cfg, records[..n]);
      assert RouteAll(records)[..n] == RouteAll(records[..n]);
      assert records == records[..n] + [records[n]];
    }
  }

  // ----- When batches are cut -----

  /** Over all interleavings, routing a record cuts a batch exactly when the record fills the buffer, and
      the batch then has batchSize records. */
  lemma RoutingCutsFullBatches(cfg: Config, steps: seq<Step>, r: Record)
    requires Schedule(cfg, steps) && cfg.hasFlush && cfg.batchSize > 0
    ensures var s := Run(cfg, steps);
            var s' := Next(cfg, s, RouteRecord(r));
            if |s.h.buf| + 1 == cfg.batchSize then s'.cuts == s.cuts + [s.h.buf + [r]] && s'.h.buf == []
            else s'.cuts == s.cuts && s'.h.buf == s.h.buf + [r] && |s'.h.buf| < cfg.batchSize
  {
    hide Run, Schedule, InOrder, HandedOver, Timed;
    RunsKeepInv(cfg, steps);
  }

  ghost predicate Flushes(a: Step) {
    a.ManualFlush? || a.TimerCallback?
  }

  ghost function FlushCount(steps: seq<Step>): nat {
    if steps == [] then 0 else FlushCount(steps[..|steps| - 1]) + if Flushes(steps[|steps| - 1]) then 1 else 0
  }

  /** The batches with fewer records than the size. */
  ghost function ShortCount(batches: seq<seq<Record>>, size: int): nat {
    if batches == [] then 0
    else ShortCount(batches[..|batches| - 1], size) + if |batches[|batches| - 1]| < size then 1 else 0
  }

  lemma ShortOfOneMore(batches: seq<seq<Record>>, last: seq<Record>, size: int)
    ensures ShortCount(batches + [last], size) == ShortCount(batches, size) + if |last| < size then 1 else 0
  {
    assert (batches + [last])[..|batches|] == batches;
  }

  lemma StepCutsShort(cfg: Config, s: Sys, a: Step)
    requires Sized(cfg, s) && Batching(cfg)
    ensures ShortCount(Next(cfg, s, a).cuts, cfg.batchSize)
            <= ShortCount(s.cuts, cfg.batchSize) + if Flushes(a) then 1 else 0
  {
    hide ShortCount, Arm;
    ShortOfOneMore(s.cuts, s.h.buf, cfg.batchSize);
    if a.RouteRecord? {
      ShortOfOneMore(s.cuts, s.h.buf + [a.record], cfg.batchSize);
    }
  }

  /** There are never more short batches than manual flushes and timer callbacks: without these, every
      batch is full. */
  lemma {:induction false} OnlyFlushesCutShort(cfg: Config, steps: seq<Step>)
    requires Schedule(cfg, steps) && cfg.hasFlush && cfg.batchSize > 0
    ensures ShortCount(Run(cfg, steps).cuts, cfg.batchSize) <= FlushCount(steps)
  {
    if steps != [] {
      hide Next, Enabled, InOrder, HandedOver, Timed, Sized;
      var n := |steps| - 1;
      OnlyFlushesCutShort(cfg, steps[..n]);
      RunsKeepInv(cfg, steps[..n]);
      StepCutsShort(cfg, Run(cfg, steps[..n]), steps[n]);
    }
  }
}
