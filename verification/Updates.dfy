/** One check's status: results are counted, and a status is recorded, announced and acted
    on only when the run of results reaches its threshold. */
module Updates {
  import opened Types
  import opened Events
  import opened Actions

  /** Results needed in a row before each status is recorded. */
  datatype Thresholds = Thresholds(passing: nat, warning: nat, critical: nat)

  datatype Updater = Updater(
    thresholds: Thresholds, status: Status, error: Option<string>,
    successes: nat, failures: nat, initialized: bool, runner: Runner)

  /** The text of the synthetic critical status a check starts with. */
  const INITIALIZING := "initializing"

  function NewUpdater(thresholds: Thresholds, runner: Runner): Updater {
    Updater(thresholds, Critical, Some(INITIALIZING), 0, 0, false, runner)
  }

  /** Warnings, criticals and timeouts share one failure counter. */
  function Count(u: Updater, o: Outcome): Updater {
    if o == Passing then u.(successes := u.successes + 1, failures := 0)
    else u.(failures := u.failures + 1, successes := 0)
  }

  /** A timeout is held to the threshold for critical. */
  predicate Reaches(u: Updater, o: Outcome) {
    match o
    case Passing => u.successes >= u.thresholds.passing
    case Warning => u.failures >= u.thresholds.warning
    case Critical => u.failures >= u.thresholds.critical
    case Timeout => u.failures >= u.thresholds.critical
  }

  /** What a check decides about a result by itself, before any event is involved. */
  datatype Verdict = Verdict(next: Updater, crossed: bool, announce: bool, act: bool)

  function Judge(u: Updater, r: Result, clk: Clock): Verdict {
    var c := Count(u, r.status);
    if !Reaches(c, r.status) then Verdict(c, false, false, false)
    else
      var (runner, ran) := Dispatch(u.runner, r.status, clk);
      Verdict(c.(status := r.status, error := r.error, initialized := true, runner := runner), true,
              (u.status != r.status || !u.initialized) && !r.noNotification, ran)
  }

  /** The event found, and what is shared after the status was recorded and announced. */
  function Recorded(name: string, w: World, r: Result, announce: bool, newID: string): (string, World) {
    var (t, id) := Attach(w.tracker, name, r.status == Passing, newID);
    (id, Emit(w.(tracker := t), announce, name, Transition, r.status, r.error, id))
  }

  /** The outcome's action, and after a pass the end of the event's counter. */
  function Concluded(name: string, w: World, r: Result, act: bool, id: string): World {
    var w1 := Emit(w, act, name, ActionRun, r.status, r.error, id);
    if r.status == Passing then w1.(tracker := Released(w1.tracker, id)) else w1
  }

  /** The shared part of a crossed threshold. */
  function Settled(name: string, w: World, r: Result, announce: bool, act: bool, newID: string): World {
    var (id, w1) := Recorded(name, w, r, announce, newID);
    Concluded(name, w1, r, act, id)
  }

  /** A result that crosses no threshold touches neither the tracker nor the outbox. */
  function React(name: string, u: Updater, w: World, r: Result, newID: string, clk: Clock): (Updater, World) {
    var v := Judge(u, r, clk);
    (v.next, if v.crossed then Settled(name, w, r, v.announce, v.act, newID) else w)
  }

  /** A check without saved state attaches to an event at once and announces that it is starting. */
  function Begin(name: string, w: World, newID: string): World {
    var (t, id) := Attach(w.tracker, name, false, newID);
    Emit(w.(tracker := t), true, name, Initial, Initializing, None, id)
  }

  /** The persisted form of a check. `pendingEventID` is a leftover that is neither set nor used. */
  datatype CheckState = CheckState(
    successes: nat, failures: nat, pendingEventID: string, status: Status, errorMsg: string,
    runner: Option<RunnerState>, updatedAt: Time)

  function Text(e: Option<string>): string {
    if e.Some? then e.value else ""
  }

  /** An error with an empty text is saved like no error at all. */
  function Parse(msg: string): Option<string> {
    if msg == "" then None else Some(msg)
  }

  function Save(u: Updater, now: Time): CheckState {
    CheckState(u.successes, u.failures, "", u.status, Text(u.error), Some(SaveRunner(u.runner)), now)
  }

  function Load(u: Updater, s: CheckState): Updater {
    u.(successes := s.successes, failures := s.failures, initialized := true, status := s.status,
       error := Parse(s.errorMsg),
       runner := if s.runner.Some? then RestoreRunner(u.runner, s.runner.value) else u.runner)
  }

  predicate Failing(s: Status) {
    s == Warning || s == Critical || s == Timeout
  }

  /** A check restored into an incident re-announces it, marked as restored. */
  function Resume(name: string, u: Updater, w: World, s: CheckState, newID: string): (Updater, World) {
    (Load(u, s),
     if !Failing(s.status) then w
     else
       var (t, id) := Attach(w.tracker, name, false, newID);
       Emit(w.(tracker := t), true, name, Restored, s.status, Parse(s.errorMsg), id))
  }

  class StatusUpdater {
    const thresholds: Thresholds
    const actions: ActionRunner
    const tracker: EventTracker
    const outbox: Outbox
    var status: Status
    var error: Option<string>
    var successes: nat
    var failures: nat
    var initialized: bool

    ghost function Footprint(): set<object?> {
      {this, actions, actions.successAction, actions.warningAction, actions.failureAction,
       actions.timeoutAction} - {null}
    }

    ghost predicate Valid() {
      actions.Valid() && actions.tracker == tracker && actions.outbox == outbox
    }

    ghost function Value(): Updater
      reads Footprint()
    {
      Updater(thresholds, status, error, successes, failures, initialized, actions.Value())
    }

    ghost function Shared(): World
      reads tracker, outbox
    {
      World(tracker.Value(), outbox.log)
    }

    constructor (thresholds: Thresholds, actions: ActionRunner, tracker: EventTracker, outbox: Outbox)
      requires actions.Valid() && actions.tracker == tracker && actions.outbox == outbox
      ensures Valid() && this.actions == actions && this.tracker == tracker && this.outbox == outbox
      ensures Value() == NewUpdater(thresholds, actions.Value())
    {
      this.thresholds, this.actions, this.tracker, this.outbox := thresholds, actions, tracker, outbox;
      status, error := Critical, Some(INITIALIZING);
      successes, failures, initialized := 0, 0, false;
    }

    /** What `NewStatusUpdater` adds to the silent constructor. */
    method Announce(newID: string)
      requires Valid()
      modifies tracker, outbox
      ensures Shared() == Begin(actions.checkName, old(Shared()), newID)
    {
      var id := tracker.GetOrCreateEventID(actions.checkName, Critical, newID);
      SendNotification(Initial, Initializing, None, id);
    }

    method SendNotification(kind: Kind, status: Status, error: Option<string>, id: string)
      modifies tracker, outbox
      ensures Shared() == Emit(old(Shared()), true, actions.checkName, kind, status, error, id)
    {
      var sequence := tracker.GetNextSequence(id);
      outbox.Send(Emission(actions.checkName, kind, status, error, id, sequence));
    }

    method Update(r: Result, newID: string, clk: Clock)
      requires Valid()
      modifies Footprint(), tracker, outbox
      ensures (Value(), Shared()) == React(actions.checkName, old(Value()), old(Shared()), r, newID, clk)
    {
      var changed := status != r.status || !initialized;
      var reached := Tally(r.status);
      if reached {
        Cross(r, changed, newID, clk);
      }
    }

    /** Counts a result; true if its run has reached the threshold of its status. */
    method Tally(o: Outcome) returns (reached: bool)
      modifies this`successes, this`failures
      ensures var c := Count(old(Value()), o); Value() == c && reached == Reaches(c, o)
    {
      reached := false;
      if o == Timeout {
        failures, successes := failures + 1, 0;
        return failures >= thresholds.critical;
      }
      if o == Passing {
        successes, failures := successes + 1, 0;
        if successes >= thresholds.passing {
          return true;
        }
      }
      if o == Warning {
        failures, successes := failures + 1, 0;
        if failures >= thresholds.warning {
          return true;
        }
      }
      if o == Critical {
        failures, successes := failures + 1, 0;
        if failures >= thresholds.critical {
          return true;
        }
      }
    }

    /** The body of every threshold branch: find the event, record the status, announce it,
        run the outcome's action, and after a pass drop the event's counter. */
    method Cross(r: Result, changed: bool, newID: string, clk: Clock)
      requires Valid()
      modifies this`status, this`error, this`initialized, actions, actions.successAction, actions.warningAction,
               actions.failureAction, actions.timeoutAction, tracker, outbox
      ensures status == r.status && error == r.error && initialized
      ensures actions.Value() == Dispatch(old(actions.Value()), r.status, clk).0
      ensures Shared() == Settled(actions.checkName, old(Shared()), r, changed && !r.noNotification,
                                  Dispatch(old(actions.Value()), r.status, clk).1, newID)
    {
      var id := Record(r, changed, newID);
      Conclude(r, id, clk);
    }

    method Conclude(r: Result, id: string, clk: Clock)
      requires Valid()
      modifies actions, actions.successAction, actions.warningAction, actions.failureAction, actions.timeoutAction,
               tracker, outbox
      ensures actions.Value() == Dispatch(old(actions.Value()), r.status, clk).0
      ensures Shared() == Concluded(actions.checkName, old(Shared()), r,
                                    Dispatch(old(actions.Value()), r.status, clk).1, id)
    {
      Act(r, id, clk);
      if r.status == Passing {
        if id != "" {
          tracker.ClearSequence(id);
        }
      }
    }

    method Act(r: Result, id: string, clk: Clock)
      requires Valid()
      modifies actions, actions.successAction, actions.warningAction, actions.failureAction, actions.timeoutAction,
               tracker, outbox
      ensures actions.Value() == Dispatch(old(actions.Value()), r.status, clk).0
      ensures Shared() == Emit(old(Shared()), Dispatch(old(actions.Value()), r.status, clk).1,
                               actions.checkName, ActionRun, r.status, r.error, id)
    {
      match r.status {
        case Timeout => actions.Timeout(r.error, id, clk);
        case Passing => actions.Success(r.error, id, clk);
        case Warning => actions.Warning(r.error, id, clk);
        case Critical => actions.Failure(r.error, id, clk);
      }
    }

    method Record(r: Result, changed: bool, newID: string) returns (id: string)
      requires Valid()
      modifies this`status, this`error, this`initialized, tracker, outbox
      ensures status == r.status && error == r.error && initialized
      ensures (id, Shared()) == Recorded(actions.checkName, old(Shared()), r, changed && !r.noNotification, newID)
    {
      id := tracker.GetOrCreateEventID(actions.checkName, r.status, newID);
      status, error := r.status, r.error;
      initialized := true;
      if changed && !r.noNotification {
        SendNotification(Transition, r.status, r.error, id);
      }
    }

    method GetState(now: Time) returns (s: CheckState)
      requires Valid()
      ensures s == Save(Value(), now)
    {
      var errMsg := "";
      if error.Some? {
        errMsg := error.value;
      }
      var runner := actions.GetState();
      s := CheckState(successes, failures, "", status, errMsg, Some(runner), now);
    }

    method RestoreState(s: CheckState, newID: string)
      requires Valid()
      modifies Footprint(), tracker, outbox
      ensures (Value(), Shared()) == Resume(actions.checkName, old(Value()), old(Shared()), s, newID)
    {
      LoadState(s);
      if s.status == Warning || s.status == Critical || s.status == Timeout {
        var id := tracker.GetOrCreateEventID(actions.checkName, s.status, newID);
        SendNotification(Restored, s.status, error, id);
      }
    }

    method LoadState(s: CheckState)
      requires Valid()
      modifies this, actions, actions.successAction, actions.warningAction, actions.failureAction, actions.timeoutAction
      ensures Value() == Load(old(Value()), s)
    {
      successes, failures := s.successes, s.failures;
      initialized := true;
      error := None;
      if s.errorMsg != "" {
        error := Some(s.errorMsg);
      }
      status := s.status;
      if s.runner.Some? {
        actions.RestoreState(s.runner);
      }
    }
  }
}
