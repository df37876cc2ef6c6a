/** The sync orchestrator: extract, transform and load run one after the other as children, while
    signals arrive at any time the orchestrator is blocked. */
module SyncOrchestrator {
  import opened Outcomes

  datatype Phase = Initializing | Extracting | Transforming | Loading | Completed | Failed | Cancelled | Paused

  datatype Stage = Extract | Transform | Load

  // ----- Signals -----

  datatype Signals = Signals(
    pauseRequested: bool, cancelRequested: bool, pauseReason: string, cancelReason: string, saveStateOnCancel: bool,
    pendingModify: Option<string>)

  const QUIET := Signals(false, false, "", "", false, None)

  class SignalState {
    var pauseRequested: bool
    var cancelRequested: bool
    var pauseReason: string
    var cancelReason: string
    var saveStateOnCancel: bool
    var pendingModify: Option<string>

    constructor ()
      ensures Fields() == QUIET
    {
      pauseRequested, cancelRequested, pauseReason, cancelReason := false, false, "", "";
      saveStateOnCancel, pendingModify := false, None;
    }

    ghost function Fields(): Signals
      reads this
    {
      Signals(pauseRequested, cancelRequested, pauseReason, cancelReason, saveStateOnCancel, pendingModify)
    }

    method ApplyPause(reason: string)
      modifies this
      ensures Fields() == old(Fields()).(pauseRequested := true, pauseReason := reason)
    {
      pauseRequested, pauseReason := true, reason;
    }

    method ApplyResume()
      modifies this
      ensures Fields() == old(Fields()).(pauseRequested := false, pauseReason := "")
    {
      pauseRequested, pauseReason := false, "";
    }

    method ApplyCancel(reason: string, saveState: bool)
      modifies this
      ensures Fields() ==
              old(Fields()).(cancelRequested := true, cancelReason := reason, saveStateOnCancel := saveState)
    {
      cancelRequested, cancelReason, saveStateOnCancel := true, reason, saveState;
    }

    method ApplyModify(changes: string)
      modifies this
      ensures Fields() == old(Fields()).(pendingModify := Some(changes))
    {
      pendingModify := Some(changes);
    }

    /** The latest modification not yet consumed, which is then gone. */
    method ConsumeModify() returns (changes: Option<string>)
      modifies this
      ensures changes == old(pendingModify)
      ensures Fields() == old(Fields()).(pendingModify := None)
    {
      changes := pendingModify;
      pendingModify := None;
    }
  }

  // ----- State -----

  datatype SyncResult = SyncResult(extracted: int, transformed: int, loaded: int, checkpoint: string,
                                   errors: seq<string>)

  /** What the children have returned so far. */
  datatype Totals = Totals(
    extracted: int, checkpoint: string, transformed: int, transformErrors: seq<string>,
    loaded: int, loadErrors: seq<string>)

  /** How a run ends: all three phases done, a phase failed, or cancelled before a phase. */
  datatype Ending = Complete | Broken(stage: Stage, error: string) | Stopped(stage: Stage, error: string)

  /** Where the orchestrator is: about to look at the signals, blocked until a resume, about to
      start a child, waiting for it, waiting for the run record, for the alert, or finished. */
  datatype Pc =
    | Check(stage: Stage)
    | Wait(stage: Stage, previous: Phase)
    | Go(stage: Stage)
    | Child(stage: Stage)
    | Saving(ending: Ending)
    | Telling(ending: Ending)
    | Done(ending: Ending)

  /** What the world outside sees. */
  datatype Event =
    | Started(stage: Stage)
    | Finished(stage: Stage)
    | Broke(stage: Stage, error: string)
    | Recorded(status: string, result: SyncResult)
    | Alerted(kind: string)
    | Returned(result: SyncResult, failure: Option<string>)

  datatype Sys = Sys(pc: Pc, phase: Phase, errors: seq<string>, totals: Totals, signals: Signals, history: seq<Event>)

  const START := Sys(Check(Extract), Initializing, [], Totals(0, "", 0, [], 0, []), QUIET, [])

  function PhaseOf(stage: Stage): Phase {
    match stage
    case Extract => Extracting
    case Transform => Transforming
    case Load => Loading
  }

  // ----- Steps -----

  datatype Step =
    | Pause(reason: string)
    | Resume
    | Cancel(reason: string, saveState: bool)
    | Modify(changes: string)
    | CheckSignals
    | Wake
    | StartChild
    | Extracted(records: int, checkpoint: string)
    | Transformed(records: int, errors: seq<string>)
    | Loaded(records: int, errors: seq<string>)
    | ChildFailed(error: string)
    | Saved
    | Told

  predicate IsSignal(a: Step) {
    a.Pause? || a.Resume? || a.Cancel? || a.Modify?
  }

  /** Signal handlers run while the orchestrator is blocked or before it looks at the signals; from
      looking to starting a child it does not yield. */
  predicate Enabled(s: Sys, a: Step) {
    match a
    case CheckSignals => s.pc.Check?
    case Wake => s.pc.Wait?
    case StartChild => s.pc.Go?
    case Extracted(_, _) => s.pc == Child(Extract)
    case Transformed(_, _) => s.pc == Child(Transform)
    case Loaded(_, _) => s.pc == Child(Load)
    case ChildFailed(_) => s.pc.Child?
    case Saved => s.pc.Saving?
    case Told => s.pc.Telling?
    case _ => !s.pc.Go? && !s.pc.Done?
  }

  function FailedResult(errors: seq<string>): SyncResult {
    SyncResult(0, 0, 0, "", errors)
  }

  function PartialResult(t: Totals, errors: seq<string>): SyncResult {
    SyncResult(t.extracted, 0, 0, t.checkpoint, errors)
  }

  function FullResult(t: Totals): SyncResult {
    SyncResult(t.extracted, t.transformed, t.loaded, t.checkpoint, t.transformErrors + t.loadErrors)
  }

  function Stop(s: Sys, stage: Stage, error: string): Sys {
    var result := if stage == Extract then FailedResult(s.errors) else PartialResult(s.totals, s.errors);
    s.(pc := Done(Stopped(stage, error)), phase := Cancelled, history := s.history + [Returned(result, Some(error))])
  }

  function FailureRecord(stage: Stage, t: Totals, errors: seq<string>): SyncResult {
    match stage
    case Extract => SyncResult(0, 0, 0, "", errors)
    case Transform => SyncResult(t.extracted, 0, 0, "", errors)
    case Load => SyncResult(t.extracted, t.transformed, 0, "", errors)
  }

  function FailureAlert(stage: Stage): string {
    match stage
    case Extract => "extract_failed"
    case Transform => "transform_failed"
    case Load => "load_failed"
  }

  function Finish(s: Sys, ending: Ending): Sys
    requires !ending.Stopped?
  {
    var returned :=
      if ending.Complete? then Returned(FullResult(s.totals), None)
      else Returned(FailedResult(s.errors), Some(ending.error));
    s.(pc := Done(ending), history := s.history + [returned])
  }

  function Next(s: Sys, a: Step): Sys
    requires Enabled(s, a)
  {
    match a
    case Pause(reason) => s.(signals := s.signals.(pauseRequested := true, pauseReason := reason))
    case Resume => s.(signals := s.signals.(pauseRequested := false, pauseReason := ""))
    case Cancel(reason, save) =>
      s.(signals := s.signals.(cancelRequested := true, cancelReason := reason, saveStateOnCancel := save))
    case Modify(changes) => s.(signals := s.signals.(pendingModify := Some(changes)))
    case CheckSignals =>
      if s.signals.cancelRequested then Stop(s, s.pc.stage, "sync cancelled: " + s.signals.cancelReason)
      else if s.signals.pauseRequested then s.(pc := Wait(s.pc.stage, s.phase), phase := Paused)
      else s.(pc := Go(s.pc.stage))
    case Wake =>
      var r := s.(signals := s.signals.(pauseRequested := false, pauseReason := ""));
      if r.signals.cancelRequested then Stop(r, s.pc.stage, "sync cancelled while paused: " + r.signals.cancelReason)
      else r.(pc := Go(s.pc.stage), phase := s.pc.previous)
    case StartChild =>
      s.(pc := Child(s.pc.stage), phase := PhaseOf(s.pc.stage), history := s.history + [Started(s.pc.stage)])
    case Extracted(n, checkpoint) =>
      s.(pc := Check(Transform), totals := s.totals.(extracted := n, checkpoint := checkpoint),
         history := s.history + [Finished(Extract)])
    case Transformed(n, errors) =>
      s.(pc := Check(Load), totals := s.totals.(transformed := n, transformErrors := errors),
         history := s.history + [Finished(Transform)])
    case Loaded(n, errors) =>
      var t := s.totals.(loaded := n, loadErrors := errors);
      s.(pc := Saving(Complete), phase := Completed, totals := t,
         history := s.history + [Finished(Load), Recorded("completed", FullResult(t))])
    case ChildFailed(error) =>
      var errors := s.errors + [error];
      s.(pc := Saving(Broken(s.pc.stage, error)), phase := Failed, errors := errors,
         history := s.history
           + [Broke(s.pc.stage, error), Recorded("failed", FailureRecord(s.pc.stage, s.totals, errors))])
    case Saved =>
      match s.pc.ending {
        case Broken(stage, _) => s.(pc := Telling(s.pc.ending), history := s.history + [Alerted(FailureAlert(stage))])
        case Complete =>
          if |FullResult(s.totals).errors| > 0 then
            s.(pc := Telling(Complete), history := s.history + [Alerted("sync_degraded")])
          else Finish(s, Complete)
        case Stopped(_, _) => s
      }
    case Told => if s.pc.ending.Stopped? then s else Finish(s, s.pc.ending)
  }

  /** The workflow's variables, which its steps change one blocking call at a time. */
  class Orchestrator {
    var pc: Pc
    var phase: Phase
    var errors: seq<string>
    var totals: Totals
    var history: seq<Event>
    const signals: SignalState

    constructor ()
      ensures View() == START && fresh(signals)
    {
      pc, phase, errors, totals, history := Check(Extract), Initializing, [], START.totals, [];
      signals := new SignalState();
    }

    ghost function View(): Sys
      reads this, signals
    {
      Sys(pc, phase, errors, totals, signals.Fields(), history)
    }

    /** The head of checkSignals: stops when cancelled, blocks when paused. */
    method CheckSignals()
      requires Enabled(View(), Step.CheckSignals)
      modifies this
      ensures View() == Next(old(View()), Step.CheckSignals)
    {
      if signals.cancelRequested {
        StopRun("sync cancelled: " + signals.cancelReason);
        return;
      }
      if signals.pauseRequested {
        var previousPhase := phase;
        phase := Paused;
        pc := Wait(pc.stage, previousPhase);
        return;
      }
      pc := Go(pc.stage);
    }

    method StopRun(error: string)
      requires pc.Check? || pc.Wait?
      modifies this
      ensures View() == Stop(old(View()), old(pc.stage), error)
    {
      var result := if pc.stage == Extract then FailedResult(errors) else PartialResult(totals, errors);
      phase := Cancelled;
      pc := Done(Stopped(pc.stage, error));
      history := history + [Returned(result, Some(error))];
    }

    /** The rest of checkSignals, after a resume was received. */
    method Wake()
      requires Enabled(View(), Step.Wake)
      modifies this, signals
      ensures View() == Next(old(View()), Step.Wake)
    {
      signals.ApplyResume();
      if signals.cancelRequested {
        StopRun("sync cancelled while paused: " + signals.cancelReason);
        return;
      }
      phase := pc.previous;
      pc := Go(pc.stage);
    }

    method StartChild()
      requires Enabled(View(), Step.StartChild)
      modifies this
      ensures View() == Next(old(View()), Step.StartChild)
    {
      phase := PhaseOf(pc.stage);
      history := history + [Started(pc.stage)];
      pc := Child(pc.stage);
    }

    method ExtractReturned(records: int, checkpoint: string)
      requires Enabled(View(), Extracted(records, checkpoint))
      modifies this
      ensures View() == Next(old(View()), Extracted(records, checkpoint))
    {
      totals := totals.(extracted := records, checkpoint := checkpoint);
      history := history + [Finished(Extract)];
      pc := Check(Transform);
    }

    method TransformReturned(records: int, errs: seq<string>)
      requires Enabled(View(), Transformed(records, errs))
      modifies this
      ensures View() == Next(old(View()), Transformed(records, errs))
    {
      totals := totals.(transformed := records, transformErrors := errs);
      history := history + [Finished(Transform)];
      pc := Check(Load);
    }

    method LoadReturned(records: int, errs: seq<string>)
      requires Enabled(View(), Loaded(records, errs))
      modifies this
      ensures View() == Next(old(View()), Loaded(records, errs))
    {
      phase := Completed;
      totals := totals.(loaded := records, loadErrors := errs);
      history := history + [Finished(Load), Recorded("completed", FullResult(totals))];
      pc := Saving(Complete);
    }

    method ChildError(error: string)
      requires Enabled(View(), ChildFailed(error))
      modifies this
      ensures View() == Next(old(View()), ChildFailed(error))
    {
      phase := Failed;
      errors := errors + [error];
      history := history + [Broke(pc.stage, error), Recorded("failed", FailureRecord(pc.stage, totals, errors))];
      pc := Saving(Broken(pc.stage, error));
    }

    /** The run record's activity came back, whether or not it succeeded. */
    method RecordReturned()
      requires Enabled(View(), Saved) && !pc.ending.Stopped?
      modifies this
      ensures View() == Next(old(View()), Saved)
    {
      if pc.ending.Broken? {
        history := history + [Alerted(FailureAlert(pc.ending.stage))];
        pc := Telling(pc.ending);
        return;
      }
      var result := FullResult(totals);
      if |result.errors| > 0 {
        history := history + [Alerted("sync_degraded")];
        pc := Telling(Complete);
        return;
      }
      history := history + [Returned(result, None)];
      pc := Done(Complete);
    }

    method AlertReturned()
      requires Enabled(View(), Told) && !pc.ending.Stopped?
      modifies this
      ensures View() == Next(old(View()), Told)
    {
      if pc.ending.Broken? {
        history := history + [Returned(FailedResult(errors), Some(pc.ending.error))];
      } else {
        history := history + [Returned(FullResult(totals), None)];
      }
      pc := Done(pc.ending);
    }
  }

  // ----- Runs -----

  ghost predicate Schedule(s: Sys, steps: seq<Step>)
    decreases steps
  {
    steps == [] || (Enabled(s, steps[0]) && Schedule(Next(s, steps[0]), steps[1..]))
  }

  ghost function Run(s: Sys, steps: seq<Step>): Sys
    requires Schedule(s, steps)
    decreases steps
  {
    if steps == [] then s else Run(Next(s, steps[0]), steps[1..])
  }

  // ----- Every history there is -----

  /** The events that lead up to a phase. */
  function Before(stage: Stage): seq<Event> {
    match stage
    case Extract => []
    case Transform => [Started(Extract), Finished(Extract)]
    case Load => [Started(Extract), Finished(Extract), Started(Transform), Finished(Transform)]
  }

  function PhaseBefore(stage: Stage): Phase {
    match stage
    case Extract => Initializing
    case Transform => Extracting
    case Load => Transforming
  }

  /** The events up to the run record. */
  function UpToRecord(e: Ending, t: Totals): seq<Event>
    requires !e.Stopped?
  {
    match e
    case Complete => Before(Load) + [Started(Load), Finished(Load), Recorded("completed", FullResult(t))]
    case Broken(stage, error) =>
      Before(stage) + [Started(stage), Broke(stage, error), Recorded("failed", FailureRecord(stage, t, [error]))]
  }

  function Alert(e: Ending, t: Totals): Option<string>
    requires !e.Stopped?
  {
    match e
    case Complete => if t.transformErrors + t.loadErrors == [] then None else Some("sync_degraded")
    case Broken(stage, _) => Some(FailureAlert(stage))
  }

  function Outcome(e: Ending, t: Totals): Event {
    match e
    case Complete => Returned(FullResult(t), None)
    case Broken(_, error) => Returned(FailedResult([error]), Some(error))
    case Stopped(stage, error) =>
      Returned(if stage == Extract then FailedResult([]) else PartialResult(t, []), Some(error))
  }

  /** The history of a run that has come to this point: there is only one. */
  function Trace(pc: Pc, t: Totals): seq<Event> {
    match pc
    case Check(stage) => Before(stage)
    case Wait(stage, _) => Before(stage)
    case Go(stage) => Before(stage)
    case Child(stage) => Before(stage) + [Started(stage)]
    case Saving(e) => if e.Stopped? then [] else UpToRecord(e, t)
    case Telling(e) => if e.Stopped? || Alert(e, t).None? then [] else UpToRecord(e, t) + [Alerted(Alert(e, t).value)]
    case Done(e) =>
      if e.Stopped? then Before(e.stage) + [Outcome(e, t)]
      else UpToRecord(e, t) + (if Alert(e, t).Some? then [Alerted(Alert(e, t).value)] else []) + [Outcome(e, t)]
  }

  function PhaseAt(pc: Pc): Phase {
    match pc
    case Check(stage) => PhaseBefore(stage)
    case Wait(_, _) => Paused
    case Go(stage) => PhaseBefore(stage)
    case Child(stage) => PhaseOf(stage)
    case Saving(e) => if e.Complete? then Completed else Failed
    case Telling(e) => if e.Complete? then Completed else Failed
    case Done(e) => if e.Complete? then Completed else if e.Broken? then Failed else Cancelled
  }

  function ErrorsAt(pc: Pc): seq<string> {
    if (pc.Saving? || pc.Telling? || pc.Done?) && pc.ending.Broken? then [pc.ending.error] else []
  }

  ghost predicate Inv(s: Sys) {
    && s.history == Trace(s.pc, s.totals)
    && s.phase == PhaseAt(s.pc)
    && s.errors == ErrorsAt(s.pc)
    && (s.pc.Wait? ==> s.pc.previous == PhaseBefore(s.pc.stage))
    && (s.pc.Go? ==> !s.signals.cancelRequested && !s.signals.pauseRequested)
    && (s.pc.Saving? ==> !s.pc.ending.Stopped?)
    && (s.pc.Telling? ==> !s.pc.ending.Stopped? && Alert(s.pc.ending, s.totals).Some?)
  }

  lemma CheckKeepsInv(s: Sys, a: Step)
    requires Inv(s) && Enabled(s, a) && (IsSignal(a) || a == CheckSignals || a == Wake || a == StartChild)
    ensures Inv(Next(s, a))
  {
    hide Before, UpToRecord, FullResult, Alert, FailureRecord, FailureAlert;
  }

  lemma ChildKeepsInv(s: Sys, a: Step)
    requires Inv(s) && Enabled(s, a) && (a.Extracted? || a.Transformed? || a.Loaded? || a.ChildFailed?)
    ensures Inv(Next(s, a))
  {
    hide FullResult, Alert, FailureRecord, FailureAlert, Outcome;
    match a
    case Loaded(n, errors) =>
      var recorded := Recorded("completed", FullResult(s.totals.(loaded := n, loadErrors := errors)));
      assert Before(Load) + [Started(Load)] + [Finished(Load), recorded]
          == Before(Load) + [Started(Load), Finished(Load), recorded];
    case ChildFailed(error) =>
      hide Before;
      var st := s.pc.stage;
      var recorded := Recorded("failed", FailureRecord(st, s.totals, [error]));
      assert s.errors + [error] == [error];
      assert Before(st) + [Started(st)] + [Broke(st, error), recorded]
          == Before(st) + [Started(st), Broke(st, error), recorded];
    case _ =>
  }

  lemma EndKeepsInv(s: Sys, a: Step)
    requires Inv(s) && Enabled(s, a) && (a == Saved || a == Told)
    ensures Inv(Next(s, a))
  {
    hide UpToRecord, FailureRecord, FailureAlert, Before;
    var e := s.pc.ending;
    var up := UpToRecord(e, s.totals);
    assert up + [] + [Outcome(e, s.totals)] == up + [Outcome(e, s.totals)];
  }

  lemma NextKeepsInv(s: Sys, a: Step)
    requires Inv(s) && Enabled(s, a)
    ensures Inv(Next(s, a))
  {
    hide Inv, Next;
    if IsSignal(a) || a == CheckSignals || a == Wake || a == StartChild {
      CheckKeepsInv(s, a);
    } else if a == Saved || a == Told {
      EndKeepsInv(s, a);
    } else {
      ChildKeepsInv(s, a);
    }
  }

  /** Over every run and signal order: what the world has seen is the one history that leads to
      where the orchestrator is, and the status phase is the one that belongs there. */
  lemma {:induction false} HistoryIsTrace(s: Sys, steps: seq<Step>)
    requires Inv(s) && Schedule(s, steps)
    ensures Inv(Run(s, steps))
    decreases steps
  {
    hide Inv, Next, Enabled;
    if steps != [] {
      NextKeepsInv(s, steps[0]);
      HistoryIsTrace(Next(s, steps[0]), steps[1..]);
    }
  }

  lemma StartIsFine()
    ensures Inv(START) && Records(START.history) == 0
  {
  }

  // ----- What the histories say -----

  /** A history is the way up to a phase, then at most the start of that phase, then other events. */
  lemma LastStart(pc: Pc, t: Totals) returns (stage: Stage, rest: seq<Event>)
    ensures Trace(pc, t) == Before(stage) + rest
    ensures forall i | 0 <= i < |rest| :: rest[i].Started? ==> i == 0 && rest[i].stage == stage
  {
    hide FullResult, FailureRecord, FailureAlert, PartialResult, FailedResult, Before;
    var trace := Trace(pc, t);
    if (pc.Saving? || pc.Telling? || pc.Done?) {
      stage := if pc.ending.Complete? then Load else pc.ending.stage;
      if trace == [] {
        NothingBefore();
        stage, rest := Extract, [];
      } else {
        rest := trace[|Before(stage)|..];
      }
    } else {
      stage, rest := pc.stage, trace[|Before(pc.stage)|..];
    }
  }

  lemma NothingBefore()
    ensures Before(Extract) == []
  {
  }

  /** A phase starts only once, and only when the phases before it have started and finished. */
  lemma PhasesInOrder(s: Sys, i: nat)
    requires Inv(s) && i < |s.history| && s.history[i].Started?
    ensures s.history[..i] == Before(s.history[i].stage)
  {
    hide Trace;
    var stage, rest := LastStart(s.pc, s.totals);
    if i < |Before(stage)| {
      assert s.history[..i] == Before(stage)[..i];
    } else {
      assert s.history[i] == rest[i - |Before(stage)|];
    }
  }

  function Records(history: seq<Event>): nat {
    if history == [] then 0
    else Records(history[..|history| - 1]) + if history[|history| - 1].Recorded? then 1 else 0
  }

  lemma RecordsOf(history: seq<Event>, e: Event)
    ensures Records(history + [e]) == Records(history) + if e.Recorded? then 1 else 0
  {
    assert (history + [e])[..|history|] == history;
  }

  /** A step issues a run record exactly when it makes the run completed or failed. */
  lemma StepRecords(s: Sys, a: Step)
    requires Inv(s) && Enabled(s, a)
    ensures Records(Next(s, a).history) - Records(s.history)
            == (if Next(s, a).phase in {Completed, Failed} && s.phase !in {Completed, Failed} then 1 else 0)
    ensures s.phase in {Completed, Failed, Cancelled} ==> Next(s, a).phase == s.phase
  {
    hide Records, Trace;
    var grown := Next(s, a).history;
    if |grown| == |s.history| + 1 {
      assert grown == s.history + [grown[|s.history|]];
      RecordsOf(s.history, grown[|s.history|]);
    } else if |grown| == |s.history| + 2 {
      var e, r := grown[|s.history|], grown[|s.history| + 1];
      assert grown == s.history + [e] + [r];
      RecordsOf(s.history, e);
      RecordsOf(s.history + [e], r);
    }
  }

  /** The run record is issued once on a completed or failed run, and never on a cancelled one. */
  lemma {:induction false} RecordedOnce(s: Sys, steps: seq<Step>)
    requires Inv(s) && Schedule(s, steps)
    requires Records(s.history) == if s.phase in {Completed, Failed} then 1 else 0
    ensures Records(Run(s, steps).history) == if Run(s, steps).phase in {Completed, Failed} then 1 else 0
    decreases steps
  {
    hide Inv, Next, Enabled, Records;
    if steps != [] {
      StepRecords(s, steps[0]);
      NextKeepsInv(s, steps[0]);
      RecordedOnce(Next(s, steps[0]), steps[1..]);
    }
  }

  /** Completed, failed and cancelled are never left. */
  lemma {:induction false} TerminalIsFinal(s: Sys, steps: seq<Step>)
    requires Inv(s) && Schedule(s, steps) && s.phase in {Completed, Failed, Cancelled}
    ensures Run(s, steps).phase == s.phase
    decreases steps
  {
    hide Inv, Next, Enabled, Records;
    if steps != [] {
      StepRecords(s, steps[0]);
      NextKeepsInv(s, steps[0]);
      TerminalIsFinal(Next(s, steps[0]), steps[1..]);
    }
  }

  function Starts(history: seq<Event>): set<Stage> {
    set e | e in history && e.Started? :: e.stage
  }

  /** Once a cancel has been applied, and the orchestrator is not already past its check, no
      further phase ever starts. */
  lemma {:induction false} CancelStopsPhases(s: Sys, steps: seq<Step>)
    requires Schedule(s, steps) && s.signals.cancelRequested && !s.pc.Go?
    ensures Starts(Run(s, steps).history) == Starts(s.history) && !Run(s, steps).pc.Go?
    decreases steps
  {
    if steps != [] {
      var s' := Next(s, steps[0]);
      StepAfterCancel(s, steps[0]);
      CancelStopsPhases(s', steps[1..]);
    }
  }

  lemma StepAfterCancel(s: Sys, a: Step)
    requires Enabled(s, a) && s.signals.cancelRequested && !s.pc.Go?
    ensures Next(s, a).signals.cancelRequested && !Next(s, a).pc.Go?
    ensures Starts(Next(s, a).history) == Starts(s.history)
  {
    var grown := Next(s, a).history;
    assert s.history <= grown;
    assert forall i | |s.history| <= i < |grown| :: !grown[i].Started?;
    assert forall e :: e in grown && e.Started? ==> e in s.history;
  }

  /** No child starts while a pause or cancel is requested, none runs while the phase is paused,
      and the phase is paused exactly while the orchestrator is blocked. */
  lemma NoChildWhilePaused(s: Sys, a: Step)
    requires Inv(s) && Enabled(s, a)
    ensures s.phase == Paused <==> s.pc.Wait?
    ensures s.phase == Paused ==> Next(s, a).history == s.history || Next(s, a).pc.Done?
    ensures a == StartChild ==> !s.signals.pauseRequested && !s.signals.cancelRequested
  {
  }

  predicate OnlySignals(steps: seq<Step>) {
    forall a :: a in steps ==> IsSignal(a)
  }

  lemma {:induction false} SignalsOnlySignal(s: Sys, steps: seq<Step>, last: Step)
    requires Schedule(s, steps + [last]) && OnlySignals(steps)
    ensures Schedule(s, steps) && Enabled(Run(s, steps), last) && Run(s, steps + [last]) == Next(Run(s, steps), last)
    ensures Run(s, steps) == s.(signals := Run(s, steps).signals)
    decreases steps
  {
    var all := steps + [last];
    if steps == [] {
      assert all == [last] && all[1..] == [];
    } else {
      assert all[0] == steps[0] && all[1..] == steps[1..] + [last];
      assert steps[0] in steps;
      SignalsOnlySignal(Next(s, steps[0]), steps[1..], last);
    }
  }

  /** A pause that ends, however many signals arrive meanwhile, ends in the exact phase it began
      in, or in cancellation if one was applied. */
  lemma PauseRestoresPhase(s: Sys, during: seq<Step>)
    requires s.pc.Check? && s.signals.pauseRequested && !s.signals.cancelRequested
    requires OnlySignals(during) && Schedule(Next(s, CheckSignals), during + [Wake])
    ensures var blocked := Run(Next(s, CheckSignals), during + [Wake]);
            if blocked.signals.cancelRequested then blocked.phase == Cancelled && blocked.pc.Done?
            else blocked.phase == s.phase && blocked.pc == Go(s.pc.stage) && !blocked.signals.pauseRequested
    ensures var blocked := Run(Next(s, CheckSignals), during + [Wake]);
            blocked.totals == s.totals && Starts(blocked.history) == Starts(s.history)
  {
    hide Run, Schedule;
    var paused := Next(s, CheckSignals);
    SignalsOnlySignal(paused, during, Wake);
    var before, after := Run(paused, during).history, Run(paused, during + [Wake]).history;
    assert before == s.history;
    assert after == before || after == before + [after[|before|]];
    assert forall e :: e in after && e.Started? <==> e in before && e.Started?;
  }

  // ----- Modify signals change nothing -----

  function WithoutModify(steps: seq<Step>): seq<Step> {
    if steps == [] then []
    else (if steps[0].Modify? then [] else [steps[0]]) + WithoutModify(steps[1..])
  }

  function Forget(s: Sys): Sys {
    s.(signals := s.signals.(pendingModify := None))
  }

  lemma {:induction false} StepForgets(s: Sys, r: Sys, a: Step)
    requires Forget(s) == Forget(r) && Enabled(s, a)
    ensures Enabled(r, a)
    ensures Forget(Next(s, a)) == if a.Modify? then Forget(r) else Forget(Next(r, a))
  {
    assert s.signals == r.signals.(pendingModify := s.signals.pendingModify);
    assert s == r.(signals := s.signals);
  }

  /** Taking all modify signals out of a run leaves everything as it was: no workflow consumes a
      pending modification. */
  lemma {:induction false} ModifyHasNoEffect(s: Sys, r: Sys, steps: seq<Step>)
    requires Forget(s) == Forget(r) && Schedule(s, steps)
    ensures Schedule(r, WithoutModify(steps))
    ensures Forget(Run(s, steps)) == Forget(Run(r, WithoutModify(steps)))
    decreases steps
  {
    hide Forget, Next, Enabled;
    if steps != [] {
      var a := steps[0];
      StepForgets(s, r, a);
      if a.Modify? {
        assert WithoutModify(steps) == WithoutModify(steps[1..]);
        ModifyHasNoEffect(Next(s, a), r, steps[1..]);
      } else {
        assert WithoutModify(steps)[1..] == WithoutModify(steps[1..]);
        ModifyHasNoEffect(Next(s, a), Next(r, a), steps[1..]);
      }
    }
  }

  // ----- The results are the children's answers -----

  /** What the children have answered over some steps; the last answer counts. */
  function Answered(t: Totals, steps: seq<Step>): Totals
    decreases steps
  {
    if steps == [] then t
    else
      var rest := steps[1..];
      match steps[0]
      case Extracted(n, c) => Answered(Totals(n, c, t.transformed, t.transformErrors, t.loaded, t.loadErrors), rest)
      case Transformed(n, e) => Answered(Totals(t.extracted, t.checkpoint, n, e, t.loaded, t.loadErrors), rest)
      case Loaded(n, e) => Answered(Totals(t.extracted, t.checkpoint, t.transformed, t.transformErrors, n, e), rest)
      case _ => Answered(t, rest)
  }

  lemma {:induction false} TotalsAreAnswers(s: Sys, steps: seq<Step>)
    requires Schedule(s, steps)
    ensures Run(s, steps).totals == Answered(s.totals, steps)
    decreases steps
  {
    if steps != [] {
      TotalsAreAnswers(Next(s, steps[0]), steps[1..]);
    }
  }

  const NOTHING := Totals(0, "", 0, [], 0, [])

  /** A run that is over has ended in one of three ways, and the last thing it tells is its result. A complete
      run tells the counts of all three children, the checkpoint of the extraction and the errors of
      transformation and load, in this order. A failed one tells the error of its phase alone. A cancelled one
      tells what had been extracted, with its checkpoint, once the extraction is over. */
  lemma ResultsAreAnswers(steps: seq<Step>)
    requires Schedule(START, steps) && Run(START, steps).pc.Done?
    ensures var s, t := Run(START, steps), Answered(NOTHING, steps);
            var n, ending := |s.history|, s.pc.ending;
            && n > 0
            && (ending.Complete? ==>
                  s.history[n - 1] == Returned(SyncResult(t.extracted, t.transformed, t.loaded, t.checkpoint,
                                                          t.transformErrors + t.loadErrors), None))
            && (ending.Broken? ==>
                  s.history[n - 1] == Returned(SyncResult(0, 0, 0, "", [ending.error]), Some(ending.error)))
            && (ending.Stopped? && ending.stage == Extract ==>
                  s.history == [Returned(SyncResult(0, 0, 0, "", []), Some(ending.error))])
            && (ending.Stopped? && ending.stage != Extract ==>
                  s.history[n - 1] == Returned(SyncResult(t.extracted, 0, 0, t.checkpoint, []), Some(ending.error)))
  {
    StartIsFine();
    TotalsAreAnswers(START, steps);
    HistoryIsTrace(START, steps);
    hide Run, Schedule, Answered, UpToRecord;
  }

  /** The record of a failed run counts what the phases before the failed one have done, and its alert names
      the phase. */
  lemma FailuresAreRecorded(steps: seq<Step>)
    requires Schedule(START, steps) && Run(START, steps).pc.Done? && Run(START, steps).pc.ending.Broken?
    ensures var s, t := Run(START, steps), Answered(NOTHING, steps);
            var n, e := |s.history|, s.pc.ending.error;
            && n >= 4
            && s.history[n - 4] == Broke(s.pc.ending.stage, e)
            && (match s.pc.ending.stage
                case Extract =>
                  && s.history[n - 3] == Recorded("failed", SyncResult(0, 0, 0, "", [e]))
                  && s.history[n - 2] == Alerted("extract_failed")
                case Transform =>
                  && s.history[n - 3] == Recorded("failed", SyncResult(t.extracted, 0, 0, "", [e]))
                  && s.history[n - 2] == Alerted("transform_failed")
                case Load =>
                  && s.history[n - 3] == Recorded("failed", SyncResult(t.extracted, t.transformed, 0, "", [e]))
                  && s.history[n - 2] == Alerted("load_failed"))
  {
    StartIsFine();
    TotalsAreAnswers(START, steps);
    HistoryIsTrace(START, steps);
    hide Run, Schedule, Answered;
  }

  /** A cancelled run tells why: a cancel seen before a phase, or one seen after a pause. */
  lemma CancelTellsWhy(s: Sys, a: Step)
    requires Enabled(s, a) && (a == CheckSignals || a == Wake) && s.signals.cancelRequested
    ensures var s' := Next(s, a);
            && s'.phase == Cancelled && s'.pc.Done? && s'.pc.ending.Stopped? && s'.pc.ending.stage == s.pc.stage
            && s'.pc.ending.error == (if s.pc.Wait? then "sync cancelled while paused: " else "sync cancelled: ")
                                     + s.signals.cancelReason
            && |s'.history| == |s.history| + 1 && s'.history[|s.history|].Returned?
            && s'.history[|s.history|].failure == Some(s'.pc.ending.error)
  {
  }

  // ----- A run that nothing disturbs -----

  lemma StepThen(s: Sys, a: Step, s': Sys, rest: seq<Step>)
    requires Enabled(s, a) && s' == Next(s, a) && Schedule(s', rest)
    ensures Schedule(s, [a] + rest) && Run(s, [a] + rest) == Run(s', rest)
  {
    hide Next;
    assert ([a] + rest)[1..] == rest;
  }

  lemma NoSteps(s: Sys)
    ensures Schedule(s, []) && Run(s, []) == s
  {
  }

  /** The steps of one phase: looking at the signals, starting the child, and its answer. */
  function PhaseSteps(answer: Step): seq<Step> {
    [CheckSignals, StartChild, answer]
  }

  lemma PhaseRuns(s: Sys, answer: Step, s': Sys, rest: seq<Step>)
    requires s.pc.Check? && !s.signals.cancelRequested && !s.signals.pauseRequested
    requires match s.pc.stage
             case Extract => answer.Extracted?
             case Transform => answer.Transformed?
             case Load => answer.Loaded?
    requires s' == Next(Next(Next(s, CheckSignals), StartChild), answer) && Schedule(s', rest)
    ensures Schedule(s, PhaseSteps(answer) + rest) && Run(s, PhaseSteps(answer) + rest) == Run(s', rest)
  {
    hide Schedule, Run;
    var s1 := Next(s, CheckSignals);
    var s2 := Next(s1, StartChild);
    StepThen(s2, answer, s', rest);
    StepThen(s1, StartChild, s2, [answer] + rest);
    StepThen(s, CheckSignals, s1, [StartChild] + ([answer] + rest));
    assert PhaseSteps(answer) + rest == [CheckSignals] + ([StartChild] + ([answer] + rest));
  }

  /** A phase that goes well, seen from outside. */
  function PhaseEvents(stage: Stage): seq<Event> {
    [Started(stage), Finished(stage)]
  }

  /** Where a run is after its first phases have gone well. */
  function After(pc: Pc, phase: Phase, totals: Totals, history: seq<Event>): Sys {
    Sys(pc, phase, [], totals, QUIET, history)
  }

  lemma ExtractGoesWell(n: int, c: string)
    ensures Next(Next(Next(START, CheckSignals), StartChild), Extracted(n, c))
            == After(Check(Transform), Extracting, Totals(n, c, 0, [], 0, []), PhaseEvents(Extract))
  {
  }

  lemma TransformGoesWell(n: int, c: string, m: int, e: seq<string>, history: seq<Event>)
    ensures var s := After(Check(Transform), Extracting, Totals(n, c, 0, [], 0, []), history);
            Next(Next(Next(s, CheckSignals), StartChild), Transformed(m, e))
            == After(Check(Load), Transforming, Totals(n, c, m, e, 0, []), history + PhaseEvents(Transform))
  {
    assert history + [Started(Transform)] + [Finished(Transform)] == history + PhaseEvents(Transform);
  }

  lemma LoadGoesWell(n: int, c: string, m: int, e: seq<string>, k: int, f: seq<string>, history: seq<Event>)
    ensures var s := After(Check(Load), Transforming, Totals(n, c, m, e, 0, []), history);
            Next(Next(Next(s, CheckSignals), StartChild), Loaded(k, f))
            == After(Saving(Complete), Completed, Totals(n, c, m, e, k, f),
                     history + PhaseEvents(Load) + [Recorded("completed", SyncResult(n, m, k, c, e + f))])
  {
    var recorded := Recorded("completed", SyncResult(n, m, k, c, e + f));
    assert history + [Started(Load)] + [Finished(Load), recorded] == history + PhaseEvents(Load) + [recorded];
  }

  /** The steps after the record: an alert if there are errors, and the end. */
  function LastSteps(degraded: bool): seq<Step> {
    if degraded then [Saved] + [Told] else [Saved]
  }

  lemma LastStepsRun(t: Totals, history: seq<Event>)
    ensures var s := After(Saving(Complete), Completed, t, history);
            var degraded := t.transformErrors + t.loadErrors != [];
            var result := SyncResult(t.extracted, t.transformed, t.loaded, t.checkpoint,
                                     t.transformErrors + t.loadErrors);
            && Schedule(s, LastSteps(degraded))
            && Run(s, LastSteps(degraded))
               == After(Done(Complete), Completed, t,
                        history + (if degraded then [Alerted("sync_degraded")] else []) + [Returned(result, None)])
  {
    hide Schedule, Run;
    var s := After(Saving(Complete), Completed, t, history);
    var s1 := Next(s, Saved);
    if t.transformErrors + t.loadErrors != [] {
      var s2 := Next(s1, Told);
      NoSteps(s2);
      assert [Told] + [] == [Told];
      StepThen(s1, Told, s2, []);
      StepThen(s, Saved, s1, [Told]);
    } else {
      NoSteps(s1);
      assert [Saved] + [] == [Saved];
      assert history + [] == history;
      StepThen(s, Saved, s1, []);
    }
  }

  /** Without signals and failures, whatever the children answer: extraction, transformation and load run in
      this order, the run is recorded, an alert follows if there were errors, and the result is returned. */
  lemma CleanRun(n: int, c: string, m: int, e: seq<string>, k: int, f: seq<string>)
    ensures var steps := PhaseSteps(Extracted(n, c)) + (PhaseSteps(Transformed(m, e)) + (PhaseSteps(Loaded(k, f))
                         + LastSteps(e + f != [])));
            var result := SyncResult(n, m, k, c, e + f);
            && Schedule(START, steps)
            && Run(START, steps).phase == Completed
            && Run(START, steps).history
               == [Started(Extract), Finished(Extract), Started(Transform), Finished(Transform), Started(Load),
                   Finished(Load), Recorded("completed", result)]
                  + (if e + f != [] then [Alerted("sync_degraded")] else []) + [Returned(result, None)]
  {
    hide Schedule, Run, Next, PhaseSteps, LastSteps;
    var t := Totals(n, c, m, e, k, f);
    var h1 := PhaseEvents(Extract);
    var h2 := h1 + PhaseEvents(Transform);
    var h3 := h2 + PhaseEvents(Load) + [Recorded("completed", SyncResult(n, m, k, c, e + f))];
    var s1 := After(Check(Transform), Extracting, Totals(n, c, 0, [], 0, []), h1);
    var s2 := After(Check(Load), Transforming, Totals(n, c, m, e, 0, []), h2);
    var s3 := After(Saving(Complete), Completed, t, h3);
    ExtractGoesWell(n, c);
    TransformGoesWell(n, c, m, e, h1);
    LoadGoesWell(n, c, m, e, k, f, h2);
    LastStepsRun(t, h3);
    var last := LastSteps(e + f != []);
    PhaseRuns(s2, Loaded(k, f), s3, last);
    PhaseRuns(s1, Transformed(m, e), s2, PhaseSteps(Loaded(k, f)) + last);
    PhaseRuns(START, Extracted(n, c), s1, PhaseSteps(Transformed(m, e)) + (PhaseSteps(Loaded(k, f)) + last));
  }

  // ----- Signals take effect -----

  /** Signals are taken up at any time before the end, except between the check and the start of a child, and
      nothing but the signals changes at once. */
  lemma SignalsAreTakenUp(s: Sys, a: Step)
    requires IsSignal(a) && !s.pc.Go? && !s.pc.Done?
    ensures Enabled(s, a) && Next(s, a) == s.(signals := Next(s, a).signals)
  {
  }

  /** Before a check that would let the run go on: a pause blocks it in the paused phase, a pause taken back
      does not, and a cancel ends it; so does a cancel that comes after the pause, when the run is resumed. */
  lemma SignalsTakeEffect(s: Sys, why: string, save: bool)
    requires s.pc.Check? && !s.signals.pauseRequested && !s.signals.cancelRequested
    ensures var paused := Next(Next(s, Pause(why)), CheckSignals);
            && paused.phase == Paused && paused.pc == Wait(s.pc.stage, s.phase)
            && Next(paused, Wake).pc == Go(s.pc.stage) && Next(paused, Wake).phase == s.phase
            && Next(Next(paused, Cancel(why, save)), Wake).phase == Cancelled
    ensures Next(Next(Next(s, Pause(why)), Resume), CheckSignals).pc == Go(s.pc.stage)
    ensures Next(Next(s, Cancel(why, save)), CheckSignals).phase == Cancelled
  {
  }
}
