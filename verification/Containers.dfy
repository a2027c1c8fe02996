/** The container: a map of checks sharing one tracker, restarts through a store of saved
    states, and the merged status the HTTP handler answers with. */
module Containers {
  import opened Types
  import opened Events
  import opened Actions
  import opened Updates

  datatype ActionConfig = ActionConfig(command: string, cooldown: Duration, onlyAfterHealthy: bool)

  /** A check's registration; a threshold of 0 asks for the default. */
  datatype Config = Config(
    successesBeforePassing: nat, failuresBeforeWarning: nat, failuresBeforeCritical: nat,
    success: Option<ActionConfig>, warning: Option<ActionConfig>,
    failure: Option<ActionConfig>, timeout: Option<ActionConfig>)

  function Or(n: nat, default: nat): nat {
    if n == 0 then default else n
  }

  function SlotFrom(c: Option<ActionConfig>): Option<Slot> {
    if c.Some? then Some(Slot(c.value.command, c.value.cooldown, c.value.onlyAfterHealthy, 0, false)) else None
  }

  function UpdaterFrom(c: Config): Updater {
    NewUpdater(
      Thresholds(Or(c.successesBeforePassing, 3), Or(c.failuresBeforeWarning, 1), Or(c.failuresBeforeCritical, 1)),
      Runner(Initializing, SlotFrom(c.success), SlotFrom(c.warning), SlotFrom(c.failure), SlotFrom(c.timeout)))
  }

  /** The whole system: what is shared, the registered checks, and the saved check states.
      `used` collects every event ID a check ever held; the code does not store it. */
  datatype System = System(world: World, checks: map<string, Updater>, store: map<string, CheckState>,
                           used: set<string>)
  {
    function Held(): map<string, string> { world.tracker.eventIDs }

    function Put(name: string, u: Updater, w: World): System {
      System(w, checks[name := u], store, used + w.tracker.eventIDs.Values)
    }
  }

  function Start(maintenanceName: string): System {
    System(World(NewTracker(maintenanceName), []), map[], map[], {})
  }

  /** One step. `newID` is the ID the random generator yields if this step needs one.
      A restart saves everything and starts a process with no checks yet registered. */
  datatype Step =
    | Register(name: string, config: Config, newID: string)
    | Deliver(name: string, result: Result, newID: string, clock: Clock)
    | Restart(now: Time)

  /** What a check function returns; a run may also exceed its timeout, whatever it returns later. */
  datatype Response = Response(error: Option<string>, isWarning: bool, noNotification: bool)

  datatype Ending = TimedOut | Responded(response: Response)

  /** The result a finished run of a check is delivered as. */
  function Reported(e: Ending, skipOnErr: bool): Result {
    match e
    case TimedOut => Result(Timeout, Some("timeout"), false)
    case Responded(Response(error, isWarning, quiet)) =>
      Result(if error.None? then Passing else if isWarning || skipOnErr then Warning else Critical, error, quiet)
  }

  function SavedChecks(checks: map<string, Updater>, now: Time): map<string, CheckState> {
    map n | n in checks :: Save(checks[n], now)
  }

  function Registered(name: string, c: Config, w: World, store: map<string, CheckState>, newID: string)
    : (Updater, World)
  {
    if name in store then Resume(name, UpdaterFrom(c), w, store[name], newID)
    else (UpdaterFrom(c), Begin(name, w, newID))
  }

  function Next(s: System, step: Step): System {
    match step
    case Register(name, config, newID) =>
      if name == "" || name in s.checks then s
      else
        var (u, w) := Registered(name, config, s.world, s.store, newID);
        s.Put(name, u, w)
    case Deliver(name, result, newID, clock) =>
      if name !in s.checks then s
      else
        var (u, w) := React(name, s.checks[name], s.world, result, newID, clock);
        s.Put(name, u, w)
    case Restart(now) =>
      var t := s.world.tracker;
      System(s.world.(tracker := RestoreTracker(NewTracker(t.maintenanceName), SaveTracker(t))), map[],
             s.store + SavedChecks(s.checks, now), s.used)
  }

  lemma DeliverIsReact(s: System, name: string, r: Result, newID: string, clk: Clock)
    requires name in s.checks
    ensures var (u, w) := React(name, s.checks[name], s.world, r, newID, clk);
            Next(s, Step.Deliver(name, r, newID, clk)) == s.Put(name, u, w)
  {
  }

  function Run(s: System, steps: seq<Step>): System
    decreases |steps|
  {
    if steps == [] then s else Run(Next(s, steps[0]), steps[1..])
  }

  /** A generated ID is neither empty nor one that was handed out before. */
  predicate FreshStep(s: System, step: Step) {
    step.Restart? || (step.newID != "" && step.newID !in s.used)
  }

  predicate FreshRun(s: System, steps: seq<Step>)
    decreases |steps|
  {
    steps == [] || (FreshStep(s, steps[0]) && FreshRun(Next(s, steps[0]), steps[1..]))
  }

  ghost predicate Reachable(s: System) {
    exists name: string, steps: seq<Step> :: FreshRun(Start(name), steps) && s == Run(Start(name), steps)
  }

  function Severity(s: Status): nat {
    match s
    case Passing => 0
    case Warning => 1
    case Initializing => 2
    case Timeout => 3
    case Critical => 4
  }

  /** The merged status: at least as bad as every check, and passing or some check's own. */
  ghost predicate IsWorst(s: Status, checks: map<string, Updater>) {
    && (forall n :: n in checks ==> Severity(checks[n].status) <= Severity(s))
    && (s == Passing || exists n :: n in checks && checks[n].status == s)
  }

  function Code(s: Status): int {
    if s == Passing then 200 else if s == Warning then 429 else 503
  }

  /** An exact state store: what is saved is what is loaded. */
  class Store {
    var checkStates: map<string, CheckState>
    var trackerState: Option<TrackerState>

    constructor ()
      ensures checkStates == map[] && trackerState == None
    {
      checkStates, trackerState := map[], None;
    }
  }

  class Health {
    const tracker: EventTracker
    const outbox: Outbox
    const persister: Store
    var checks: map<string, StatusUpdater>

    ghost function Footprints(): set<object?>
      reads this
    {
      set n, o | n in checks && o in checks[n].Footprint() :: o
    }

    ghost predicate Valid()
      reads this
    {
      Wired() && Separate()
    }

    /** Every check uses this container's tracker and outbox under its own name. */
    ghost predicate Wired()
      reads this
    {
      forall n :: n in checks ==>
        && checks[n].Valid() && checks[n].tracker == tracker && checks[n].outbox == outbox
        && checks[n].actions.checkName == n
    }

    /** No two checks share an object of their own. */
    ghost predicate Separate()
      reads this
    {
      forall m, n :: m in checks && n in checks && m != n ==> checks[m].Footprint() !! checks[n].Footprint()
    }

    ghost function Checks(): map<string, Updater>
      reads this, Footprints()
    {
      map n | n in checks :: ValueOf(n)
    }

    ghost function ValueOf(n: string): Updater
      requires n in checks
      reads this, Footprints()
    {
      assert checks[n].Footprint() <= Footprints();
      checks[n].Value()
    }

    ghost function Shared(): World
      reads tracker, outbox
    {
      World(tracker.Value(), outbox.log)
    }

    /** The container as a system of the specification, apart from the IDs used so far. */
    ghost function Model(): System
      reads this, Footprints(), tracker, outbox, persister
    {
      System(Shared(), Checks(), persister.checkStates, {})
    }

    ghost predicate Is(s: System)
      reads this, Footprints(), tracker, outbox, persister
    {
      Shared() == s.world && Checks() == s.checks && persister.checkStates == s.store
    }

    constructor (maintenanceName: string, persister: Store, outbox: Outbox)
      ensures Valid() && Checks() == map[] && this.persister == persister && this.outbox == outbox && fresh(tracker)
      ensures tracker.Value() == if persister.trackerState.Some?
                                 then RestoreTracker(NewTracker(maintenanceName), persister.trackerState.value)
                                 else NewTracker(maintenanceName)
    {
      this.persister, this.outbox := persister, outbox;
      checks := map[];
      var t := new EventTracker(maintenanceName);
      tracker := t;
      new;
      tracker.RestoreState(persister.trackerState);
    }

    static method NewAction(c: Option<ActionConfig>) returns (a: Action?)
      ensures (a != null <==> c.Some?) && (a != null ==> fresh(a))
      ensures a != null ==>
                && a.command == c.value.command && a.cooldown == c.value.cooldown
                && a.onlyAfterHealthy == c.value.onlyAfterHealthy && a.lastRun == 0 && !a.canRun
    {
      if c.None? {
        return null;
      }
      a := new Action(c.value.command, c.value.cooldown, c.value.onlyAfterHealthy);
    }

    method NewStatusUpdater(name: string, config: Config) returns (u: StatusUpdater)
      ensures fresh(u) && fresh(u.Footprint()) && u.Valid()
      ensures u.Value() == UpdaterFrom(config)
      ensures u.tracker == tracker && u.outbox == outbox && u.actions.checkName == name
    {
      var success := NewAction(config.success);
      var warning := NewAction(config.warning);
      var failure := NewAction(config.failure);
      var timeout := NewAction(config.timeout);
      var runner := new ActionRunner(name, success, warning, failure, timeout, tracker, outbox);
      var thresholds := Thresholds(Or(config.successesBeforePassing, 3), Or(config.failuresBeforeWarning, 1),
                                   Or(config.failuresBeforeCritical, 1));
      u := new StatusUpdater(thresholds, runner, tracker, outbox);
    }

    /** Refused, with nothing changed, for an empty or already registered name. */
    method Register(name: string, config: Config, newID: string) returns (ok: bool)
      requires Valid()
      modifies this, tracker, outbox
      ensures Valid() && ok == (name != "" && name !in old(checks))
      ensures Is(Next(old(Model()), Step.Register(name, config, newID)))
    {
      if name == "" || name in checks {
        return false;
      }
      ghost var before := Model();
      var u := Prepare(name, config, newID);
      NothingTouched(u);
      assert (u.Value(), Shared()) == Registered(name, config, before.world, before.store, newID);
      Insert(name, u);
      assert Shared() == Registered(name, config, before.world, before.store, newID).1;
      ok := true;
    }

    /** A new check shares nothing with the registered ones, which are as they were. */
    twostate lemma NothingTouched(new u: StatusUpdater)
      requires old(Valid()) && unchanged(this) && fresh(u.Footprint())
      requires forall n, o: object :: n in checks && o in checks[n].Footprint() ==> unchanged(o)
      ensures Checks() == old(Checks()) && u.Footprint() !! Footprints()
    {
      forall n | n in checks
        ensures checks[n].Value() == old(checks[n].Value()) && checks[n].Footprint() !! u.Footprint()
      {
      }
    }

    method Insert(name: string, u: StatusUpdater)
      requires Valid() && name !in checks
      requires u.Valid() && u.tracker == tracker && u.outbox == outbox && u.actions.checkName == name
      requires u.Footprint() !! Footprints()
      modifies this
      ensures Valid() && checks == old(checks)[name := u]
      ensures Checks() == old(Checks())[name := u.Value()]
    {
      checks := checks[name := u];
      InsertedSeparate(name);
      InsertedChecks(name);
    }

    twostate lemma InsertedSeparate(name: string)
      requires old(Separate()) && name in checks && checks == old(checks)[name := checks[name]]
      requires checks[name].Footprint() !! old(Footprints())
      ensures Separate()
    {
      forall m, n | m in checks && n in checks && m != n
        ensures checks[m].Footprint() !! checks[n].Footprint()
      {
        assert m != name ==> checks[m].Footprint() <= old(Footprints());
        assert n != name ==> checks[n].Footprint() <= old(Footprints());
      }
    }

    twostate lemma InsertedChecks(name: string)
      requires name in checks && name !in old(checks) && checks == old(checks)[name := checks[name]]
      requires forall n, o: object :: n in checks && n != name && o in checks[n].Footprint() ==> unchanged(o)
      ensures Checks() == old(Checks())[name := checks[name].Value()]
    {
      forall n | n in checks && n != name
        ensures ValueOf(n) == old(Checks())[n]
      {
        assert n in old(checks) && old(Checks())[n] == old(ValueOf(n));
      }
    }

    /** Saved state is looked up before the check exists, so that a restored check stays silent
        about starting. */
    method Prepare(name: string, config: Config, newID: string) returns (u: StatusUpdater)
      modifies tracker, outbox
      ensures fresh(u.Footprint()) && u.Valid()
      ensures u.tracker == tracker && u.outbox == outbox && u.actions.checkName == name
      ensures (u.Value(), Shared()) == Registered(name, config, old(Shared()), persister.checkStates, newID)
    {
      u := NewStatusUpdater(name, config);
      if name in persister.checkStates {
        u.RestoreState(persister.checkStates[name], newID);
      } else {
        u.Announce(newID);
      }
    }

    /** A result arriving at one check leaves every other check as it was. */
    method Deliver(name: string, r: Result, newID: string, clk: Clock)
      requires Valid() && name in checks
      modifies checks[name].Footprint(), tracker, outbox
      ensures Valid() && Is(Next(old(Model()), Step.Deliver(name, r, newID, clk)))
    {
      ghost var before := Model();
      UpdateOne(name, r, newID, clk);
      DeliverIsReact(before, name, r, newID, clk);
    }

    method UpdateOne(name: string, r: Result, newID: string, clk: Clock)
      requires Valid() && name in checks
      modifies checks[name].Footprint(), tracker, outbox
      ensures Valid()
      ensures var (u, w) := React(name, old(Checks())[name], old(Shared()), r, newID, clk);
              Checks() == old(Checks())[name := u] && Shared() == w
    {
      checks[name].Update(r, newID, clk);
      OthersKept(name);
    }

    /** One run of a check function, ended by its response or by its timeout. */
    method Check(name: string, skipOnErr: bool, e: Ending, newID: string, clk: Clock)
      requires Valid() && name in checks
      modifies checks[name].Footprint(), tracker, outbox
      ensures Valid() && Is(Next(old(Model()), Step.Deliver(name, Reported(e, skipOnErr), newID, clk)))
    {
      match e {
        case TimedOut =>
          Deliver(name, Result(Timeout, Some("timeout"), false), newID, clk);
        case Responded(res) =>
          var status: Outcome := Passing;
          if res.error.Some? {
            if res.isWarning || skipOnErr {
              status := Warning;
            } else {
              status := Critical;
            }
          }
          Deliver(name, Result(status, res.error, res.noNotification), newID, clk);
      }
    }

    twostate lemma OthersKept(name: string)
      requires old(Valid()) && unchanged(this) && name in checks
      requires forall n, o: object :: n in checks && n != name && o in checks[n].Footprint() ==> unchanged(o)
      ensures Checks() == old(Checks())[name := checks[name].Value()]
    {
      forall n | n in checks && n != name
        ensures checks[n].Value() == old(checks[n].Value())
      {
      }
    }

    method Status() returns (status: Status, failures: map<string, string>)
      ensures IsWorst(status, Checks())
      ensures failures == map n | n in Checks() && Checks()[n].error.Some? :: Checks()[n].error.value
    {
      ghost var all := Checks();
      status, failures := Passing, map[];
      var rest := checks.Keys;
      while rest != {}
        invariant rest <= checks.Keys
        invariant forall n :: n in checks.Keys - rest ==> Severity(all[n].status) <= Severity(status)
        invariant status == Passing || exists n :: n in all && all[n].status == status
        invariant failures == map n | n in checks.Keys - rest && all[n].error.Some? :: all[n].error.value
        decreases rest
      {
        var n :| n in rest;
        assert all[n] == checks[n].Value();
        if Severity(checks[n].status) > Severity(status) {
          status := checks[n].status;
        }
        if checks[n].error.Some? {
          failures := failures[n := checks[n].error.value];
        }
        rest := rest - {n};
      }
    }

    method HandlerCode() returns (code: int)
      ensures exists s :: IsWorst(s, Checks()) && code == Code(s)
    {
      var status, failures := Status();
      code := 503;
      if status == Passing {
        code := 200;
      }
      if status == Warning {
        code := 429;
      }
      assert code == Code(status);
    }

    /** Every registered check's state replaces its stored one; others are kept. */
    method SaveState(now: Time)
      requires Wired()
      modifies persister
      ensures persister.trackerState == Some(SaveTracker(old(tracker.Value())))
      ensures persister.checkStates == old(persister.checkStates) + SavedChecks(old(Checks()), now)
    {
      var t := tracker.GetState();
      assert Checks() == old(Checks());
      var states := GetStates(now);
      var merged := persister.checkStates + states;
      persister.trackerState, persister.checkStates := Some(t), merged;
    }

    /** A process saves its state and stops; the next one starts from the same store. */
    method Reboot(now: Time) returns (h: Health)
      requires Wired()
      modifies persister
      ensures h.Valid() && h.Is(Next(old(Model()), Restart(now)))
    {
      SaveState(now);
      h := new Health(tracker.maintenanceCheckName, persister, outbox);
    }

    method GetStates(now: Time) returns (states: map<string, CheckState>)
      requires Wired()
      ensures states == SavedChecks(old(Checks()), now)
    {
      ghost var all := Checks();
      states := map[];
      var rest := checks.Keys;
      while rest != {}
        invariant rest <= checks.Keys
        invariant states == map n | n in checks.Keys - rest :: Save(all[n], now)
        decreases rest
      {
        var n :| n in rest;
        assert all[n] == checks[n].Value();
        var s := checks[n].GetState(now);
        states := states[n := s];
        rest := rest - {n};
      }
    }
  }
}
