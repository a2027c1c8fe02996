/** Actions of one check: when the command of an outcome's action is due. */
module Actions {
  import opened Types
  import opened Events

  /** What is configured for an action, and the two fields its runs change. */
  datatype Slot = Slot(command: string, cooldown: Duration, onlyAfterHealthy: bool, lastRun: Time, canRun: bool)

  datatype Runner = Runner(
    status: Status, success: Option<Slot>, warning: Option<Slot>, failure: Option<Slot>, timeout: Option<Slot>)
  {
    function SlotFor(o: Outcome): Option<Slot> {
      match o
      case Passing => success
      case Warning => warning
      case Critical => failure
      case Timeout => timeout
    }

    function With(o: Outcome, s: Slot): Runner {
      match o
      case Passing => this.(success := Some(s))
      case Warning => this.(warning := Some(s))
      case Critical => this.(failure := Some(s))
      case Timeout => this.(timeout := Some(s))
    }
  }

  /** Whether this result makes the action eligible. A success action with a cooldown also
      needs the runner not to be passing yet, or it would run on every pass. */
  predicate Unlocks(s: Slot, status: Status, o: Outcome, now: Time) {
    if s.onlyAfterHealthy then status != o
    else Since(now, s.lastRun) >= s.cooldown && (o == Passing ==> status != Passing)
  }

  /** Starts the command of an eligible action, if it has one. */
  function Fire(s: Slot, now: Time): (Slot, bool) {
    if s.canRun && s.command != "" then (s.(canRun := false, lastRun := now), true) else (s, false)
  }

  /** The runner after a dispatched outcome, and whether the outcome's command was started. */
  function Dispatch(r: Runner, o: Outcome, clk: Clock): (Runner, bool) {
    match r.SlotFor(o)
    case None => (r.(status := o), false)
    case Some(s) =>
      var unlocks := Unlocks(s, r.status, o, clk.gate);
      var s1 := if unlocks then s.(canRun := true) else s;
      var r1 := if unlocks then r.(status := o) else r;
      var (s2, ran) := Fire(s1, clk.run);
      (r1.With(o, s2), ran)
  }

  /** What all checks share: the tracker and everything handed over so far. */
  datatype World = World(tracker: Tracker, log: seq<Emission>)

  /** Reserves the event's next number and hands over one entry, if one is due. */
  function Emit(w: World, due: bool, check: string, kind: Kind, status: Status, error: Option<string>, id: string)
    : World
  {
    if !due then w
    else
      var (t, n) := NextSequence(w.tracker, id);
      World(t, w.log + [Emission(check, kind, status, error, id, n)])
  }

  datatype ActionState = ActionState(lastRun: Time, canRun: bool)

  datatype RunnerState = RunnerState(
    status: Status, success: Option<ActionState>, warning: Option<ActionState>,
    failure: Option<ActionState>, timeout: Option<ActionState>)

  function SaveSlot(s: Option<Slot>): Option<ActionState> {
    if s.Some? then Some(ActionState(s.value.lastRun, s.value.canRun)) else None
  }

  /** A saved action state applies only where the action is still configured. */
  function RestoreSlot(s: Option<Slot>, a: Option<ActionState>): Option<Slot> {
    if s.Some? && a.Some? then Some(s.value.(lastRun := a.value.lastRun, canRun := a.value.canRun)) else s
  }

  function SaveRunner(r: Runner): RunnerState {
    RunnerState(r.status, SaveSlot(r.success), SaveSlot(r.warning), SaveSlot(r.failure), SaveSlot(r.timeout))
  }

  function RestoreRunner(r: Runner, s: RunnerState): Runner {
    Runner(s.status, RestoreSlot(r.success, s.success), RestoreSlot(r.warning, s.warning),
           RestoreSlot(r.failure, s.failure), RestoreSlot(r.timeout, s.timeout))
  }

  /** A configured action, updated in place by the runner that owns it. */
  class Action {
    const command: string
    const cooldown: Duration
    const onlyAfterHealthy: bool
    var lastRun: Time
    var canRun: bool

    constructor (command: string, cooldown: Duration, onlyAfterHealthy: bool)
      ensures Value() == Slot(command, cooldown, onlyAfterHealthy, 0, false)
    {
      this.command, this.cooldown, this.onlyAfterHealthy := command, cooldown, onlyAfterHealthy;
      lastRun, canRun := 0, false;
    }

    ghost function Value(): Slot
      reads this
    {
      Slot(command, cooldown, onlyAfterHealthy, lastRun, canRun)
    }
  }

  ghost function SlotOf(a: Action?): Option<Slot>
    reads a
  {
    if a == null then None else Some(a.Value())
  }

  class ActionRunner {
    const checkName: string
    const successAction: Action?
    const warningAction: Action?
    const failureAction: Action?
    const timeoutAction: Action?
    const tracker: EventTracker
    const outbox: Outbox
    var status: Status

    /** No action serves two outcomes. */
    ghost predicate Valid() {
      && (successAction != null ==> successAction !in {warningAction, failureAction, timeoutAction})
      && (warningAction != null ==> warningAction !in {failureAction, timeoutAction})
      && (failureAction != null ==> failureAction != timeoutAction)
    }

    ghost function Value(): Runner
      reads this, successAction, warningAction, failureAction, timeoutAction
    {
      Runner(status, SlotOf(successAction), SlotOf(warningAction), SlotOf(failureAction), SlotOf(timeoutAction))
    }

    constructor (checkName: string, success: Action?, warning: Action?, failure: Action?, timeout: Action?,
                 tracker: EventTracker, outbox: Outbox)
      requires success != null ==> success !in {warning, failure, timeout}
      requires warning != null ==> warning !in {failure, timeout}
      requires failure != null ==> failure != timeout
      ensures Valid() && this.checkName == checkName && this.tracker == tracker && this.outbox == outbox
      ensures successAction == success && warningAction == warning && failureAction == failure
              && timeoutAction == timeout
      ensures Value() == Runner(Initializing, SlotOf(success), SlotOf(warning), SlotOf(failure), SlotOf(timeout))
    {
      this.checkName, this.tracker, this.outbox := checkName, tracker, outbox;
      successAction, warningAction, failureAction, timeoutAction := success, warning, failure, timeout;
      status := Initializing;
    }

    method Success(error: Option<string>, eventID: string, clk: Clock)
      requires Valid()
      modifies this, successAction, tracker, outbox
      ensures Value() == Dispatch(old(Value()), Passing, clk).0
      ensures World(tracker.Value(), outbox.log) ==
              Emit(World(old(tracker.Value()), old(outbox.log)), Dispatch(old(Value()), Passing, clk).1, checkName,
                   ActionRun, Passing, error, eventID)
    {
      if successAction == null {
        status := Passing;
        return;
      }
      if successAction.onlyAfterHealthy {
        if status != Passing {
          successAction.canRun := true;
          status := Passing;
        }
      } else {
        if Since(clk.gate, successAction.lastRun) >= successAction.cooldown && status != Passing {
          successAction.canRun := true;
          status := Passing;
        }
      }
      ghost var unlocks := Unlocks(old(successAction.Value()), old(status), Passing, clk.gate);
      assert successAction.Value() == if unlocks then old(successAction.Value()).(canRun := true)
        else old(successAction.Value());
      Start(successAction, Passing, error, eventID, clk);
    }

    method Failure(error: Option<string>, eventID: string, clk: Clock)
      requires Valid()
      modifies this, failureAction, tracker, outbox
      ensures Value() == Dispatch(old(Value()), Critical, clk).0
      ensures World(tracker.Value(), outbox.log) ==
              Emit(World(old(tracker.Value()), old(outbox.log)), Dispatch(old(Value()), Critical, clk).1, checkName,
                   ActionRun, Critical, error, eventID)
    {
      if failureAction == null {
        status := Critical;
        return;
      }
      if failureAction.onlyAfterHealthy {
        if status != Critical {
          failureAction.canRun := true;
          status := Critical;
        }
      } else {
        if Since(clk.gate, failureAction.lastRun) >= failureAction.cooldown {
          failureAction.canRun := true;
          status := Critical;
        }
      }
      ghost var unlocks := Unlocks(old(failureAction.Value()), old(status), Critical, clk.gate);
      assert failureAction.Value() == if unlocks then old(failureAction.Value()).(canRun := true)
        else old(failureAction.Value());
      Start(failureAction, Critical, error, eventID, clk);
    }

    method Warning(error: Option<string>, eventID: string, clk: Clock)
      requires Valid()
      modifies this, warningAction, tracker, outbox
      ensures Value() == Dispatch(old(Value()), Status.Warning, clk).0
      ensures World(tracker.Value(), outbox.log) ==
              Emit(World(old(tracker.Value()), old(outbox.log)), Dispatch(old(Value()), Status.Warning, clk).1,
                   checkName, ActionRun, Status.Warning, error, eventID)
    {
      if warningAction == null {
        status := Status.Warning;
        return;
      }
      if warningAction.onlyAfterHealthy {
        if status != Status.Warning {
          warningAction.canRun := true;
          status := Status.Warning;
        }
      } else {
        if Since(clk.gate, warningAction.lastRun) >= warningAction.cooldown {
          warningAction.canRun := true;
          status := Status.Warning;
        }
      }
      ghost var unlocks := Unlocks(old(warningAction.Value()), old(status), Status.Warning, clk.gate);
      assert warningAction.Value() == if unlocks then old(warningAction.Value()).(canRun := true)
        else old(warningAction.Value());
      Start(warningAction, Status.Warning, error, eventID, clk);
    }

    method Timeout(error: Option<string>, eventID: string, clk: Clock)
      requires Valid()
      modifies this, timeoutAction, tracker, outbox
      ensures Value() == Dispatch(old(Value()), Status.Timeout, clk).0
      ensures World(tracker.Value(), outbox.log) ==
              Emit(World(old(tracker.Value()), old(outbox.log)), Dispatch(old(Value()), Status.Timeout, clk).1,
                   checkName, ActionRun, Status.Timeout, error, eventID)
    {
      if timeoutAction == null {
        status := Status.Timeout;
        return;
      }
      if timeoutAction.onlyAfterHealthy {
        if status != Status.Timeout {
          timeoutAction.canRun := true;
          status := Status.Timeout;
        }
      } else {
        if Since(clk.gate, timeoutAction.lastRun) >= timeoutAction.cooldown {
          timeoutAction.canRun := true;
          status := Status.Timeout;
        }
      }
      ghost var unlocks := Unlocks(old(timeoutAction.Value()), old(status), Status.Timeout, clk.gate);
      assert timeoutAction.Value() == if unlocks then old(timeoutAction.Value()).(canRun := true)
        else old(timeoutAction.Value());
      Start(timeoutAction, Status.Timeout, error, eventID, clk);
    }

    /** Starts the command of an eligible action. The run's number is reserved at once; the
        command itself runs later and elsewhere. */
    method Start(action: Action, outcome: Outcome, error: Option<string>, eventID: string, clk: Clock)
      modifies action, tracker, outbox
      ensures action.Value() == Fire(old(action.Value()), clk.run).0
      ensures World(tracker.Value(), outbox.log) ==
              Emit(World(old(tracker.Value()), old(outbox.log)), Fire(old(action.Value()), clk.run).1, checkName,
                   ActionRun, outcome, error, eventID)
    {
      if action.canRun {
        if action.command != "" {
          var sequence: nat := 0;
          if eventID != "" {
            sequence := tracker.GetNextSequence(eventID);
          }
          outbox.Send(Emission(checkName, ActionRun, outcome, error, eventID, sequence));
          action.canRun := false;
          action.lastRun := clk.run;
        }
      }
    }

    method GetState() returns (s: RunnerState)
      requires Valid()
      ensures s == SaveRunner(Value())
    {
      var none: Option<ActionState> := None;
      s := RunnerState(status, none, none, none, none);
      if successAction != null {
        s := s.(success := Some(ActionState(successAction.lastRun, successAction.canRun)));
      }
      if warningAction != null {
        s := s.(warning := Some(ActionState(warningAction.lastRun, warningAction.canRun)));
      }
      if failureAction != null {
        s := s.(failure := Some(ActionState(failureAction.lastRun, failureAction.canRun)));
      }
      if timeoutAction != null {
        s := s.(timeout := Some(ActionState(timeoutAction.lastRun, timeoutAction.canRun)));
      }
    }

    method RestoreState(s: Option<RunnerState>)
      requires Valid()
      modifies this, successAction, warningAction, failureAction, timeoutAction
      ensures s.None? ==> Value() == old(Value())
      ensures s.Some? ==> Value() == RestoreRunner(old(Value()), s.value)
    {
      if s.None? {
        return;
      }
      var state := s.value;
      status := state.status;
      RestoreAction(successAction, state.success);
      RestoreAction(warningAction, state.warning);
      RestoreAction(failureAction, state.failure);
      RestoreAction(timeoutAction, state.timeout);
    }

    static method RestoreAction(a: Action?, s: Option<ActionState>)
      modifies a
      ensures SlotOf(a) == RestoreSlot(old(SlotOf(a)), s)
    {
      if a != null && s.Some? {
        a.lastRun := s.value.lastRun;
        a.canRun := s.value.canRun;
      }
    }
  }
}
