/** A process restored from a snapshot behaves like the process that stopped: same statuses,
    same sends and runs, same events up to the names of new ones. Only sequence numbers are
    ahead, by the restored notifications of their event, and only the first alert of a check
    that had not crossed a threshold yet can be missing. */
module Restarts {
  import opened Types
  import opened Events
  import opened Actions
  import opened Updates
  import opened Containers
  import opened Ledger
  import opened Invariants
  import opened Debounce
  import opened RestoredChecks
  import opened Simulation
  import ActionRuns
  import Rows

  // ---------------------------------------------------------------- restoring

  ghost predicate AllConfigured(s: System, configs: map<string, Config>) {
    forall n :: n in s.checks ==> n in configs && ConfiguredAs(s.checks[n], configs[n])
  }

  /** No step changes what a check was configured with. */
  lemma StepKeepsConfiguration(s: System, step: Step, configs: map<string, Config>)
    requires AllConfigured(s, configs)
    requires step.Register? ==> step.name in configs && configs[step.name] == step.config
    ensures AllConfigured(Next(s, step), configs)
  {
    if step.Register? && step.name != "" && step.name !in s.checks {
      RegisterKeepsOthers(s, step);
      RegisteredIsConfigured(step.name, step.config, s.world, s.store, step.newID);
      OneCheckConfigured(s, Next(s, step), step.name, configs);
    } else if step.Deliver? && step.name in s.checks {
      DeliverKeepsOthers(s, step);
      DispatchKeepsConfiguration(s.checks[step.name].runner, step.result.status, step.clock);
      OneCheckConfigured(s, Next(s, step), step.name, configs);
    }
  }

  lemma OneCheckConfigured(s: System, s': System, name: string, configs: map<string, Config>)
    requires AllConfigured(s, configs) && s'.checks.Keys == s.checks.Keys + {name}
    requires forall n :: n in s.checks && n != name ==> s'.checks[n] == s.checks[n]
    requires name in configs && ConfiguredAs(s'.checks[name], configs[name])
    ensures AllConfigured(s', configs)
  {
  }

  lemma RegisteredIsConfigured(name: string, c: Config, w: World, store: map<string, CheckState>, newID: string)
    ensures ConfiguredAs(Registered(name, c, w, store, newID).0, c)
  {
    if name in store {
      LoadKeepsConfiguration(UpdaterFrom(c), store[name]);
    }
  }

  lemma LoadKeepsConfiguration(u: Updater, s: CheckState)
    ensures Load(u, s).thresholds == u.thresholds
            && ActionRuns.Configured(Load(u, s).runner) == ActionRuns.Configured(u.runner)
  {
  }

  lemma DispatchKeepsConfiguration(r: Runner, o: Outcome, clk: Clock)
    ensures ActionRuns.Configured(Dispatch(r, o, clk).0) == ActionRuns.Configured(r)
  {
  }

  /** Registering the checks of a stopped process again. */
  function Registrations(names: seq<string>, configs: map<string, Config>, ids: seq<string>): seq<Step>
    requires |ids| == |names| && forall i :: 0 <= i < |names| ==> names[i] in configs
  {
    if names == [] then []
    else [Step.Register(names[0], configs[names[0]], ids[0])] + Registrations(names[1..], configs, ids[1..])
  }

  /** The checks among `done` that hold an event. */
  function Holders(held: map<string, string>, done: set<string>, id: string): set<string> {
    set c | c in done && c in held && held[c] == id
  }

  /** A restored process in which some of the checks are registered again. */
  ghost predicate Restoring(a: System, b: System, now: Time) {
    && (b.Held(), b.used, b.world.tracker.maintenanceName) == (a.Held(), a.used, a.world.tracker.maintenanceName)
    && b.store == a.store + SavedChecks(a.checks, now)
    && b.checks.Keys <= a.checks.Keys
    && (forall n :: n in b.checks ==> SameCheck(a.checks[n], b.checks[n]) && b.checks[n].initialized)
    && (forall id :: id in a.Held().Values ==>
          Lookup(b.world.tracker.sequences, id, 0) ==
          Lookup(a.world.tracker.sequences, id, 0) + |Holders(a.Held(), b.checks.Keys, id)|)
    && AddsOnlyRestored(a.world.log, b.world.log)
  }

  ghost predicate AddsOnlyRestored(log: seq<Emission>, log': seq<Emission>) {
    log <= log' && forall i :: |log| <= i < |log'| ==> log'[i].kind == Restored
  }

  lemma RestoreBegins(a: System, now: Time)
    ensures Restoring(a, Next(a, Restart(now)), now) && Next(a, Restart(now)).checks == map[]
  {
    var b := Next(a, Restart(now));
    NothingLost(a.world.tracker);
    forall id | id in a.Held().Values
      ensures Lookup(b.world.tracker.sequences, id, 0) ==
              Lookup(a.world.tracker.sequences, id, 0) + |Holders(a.Held(), {}, id)|
    {
      assert Holders(a.Held(), {}, id) == {};
    }
  }

  lemma NothingLost(t: Tracker)
    ensures RestoreTracker(NewTracker(t.maintenanceName), SaveTracker(t)) == t
  {
  }

  lemma OneMoreHolder(held: map<string, string>, done: set<string>, name: string, id: string)
    requires name !in done
    ensures |Holders(held, done + {name}, id)| ==
            |Holders(held, done, id)| + if name in held && held[name] == id then 1 else 0
  {
    if name in held && held[name] == id {
      assert Holders(held, done + {name}, id) == Holders(held, done, id) + {name};
    } else {
      assert Holders(held, done + {name}, id) == Holders(held, done, id);
    }
  }

  /** Registering one check again announces its event, if it holds one, and attaches nothing new. */
  lemma OneMoreRestored(a: System, b: System, now: Time, step: Step)
    requires Reachable(b) && Restoring(a, b, now) && FreshStep(b, step)
    requires step.Register? && step.name in a.checks && step.name !in b.checks && step.name != ""
    requires ConfiguredAs(a.checks[step.name], step.config) && Begun(a.checks[step.name])
    ensures Restoring(a, Next(b, step), now) && Next(b, step).checks.Keys == b.checks.Keys + {step.name}
  {
    var name, b' := step.name, Next(b, step);
    ReachableIsSound(b);
    assert b.store[name] == Save(a.checks[name], now);
    LoadedIsSame(a.checks[name], step.config, now);
    RestoredHolds(b, step);
    RegisterKeepsOthers(b, step);
    RestoredWorld(b, step);
    RestoringGrows(a, b, b', now, name);
  }

  lemma RestoringGrows(a: System, b: System, b': System, now: Time, name: string)
    requires Restoring(a, b, now) && name in a.checks && name !in b.checks
    requires b'.world.tracker.maintenanceName == b.world.tracker.maintenanceName && b'.Held() == b.Held()
             && b'.used == b.used
    requires b'.checks.Keys == b.checks.Keys + {name} && b'.store == b.store
    requires (forall n :: n in b.checks ==> b'.checks[n] == b.checks[n]) && SameCheck(a.checks[name], b'.checks[name])
    requires b'.checks[name].initialized
    requires CountsOneMore(b, b', name)
    ensures Restoring(a, b', now)
  {
    forall id | id in a.Held().Values
      ensures Lookup(b'.world.tracker.sequences, id, 0) ==
              Lookup(a.world.tracker.sequences, id, 0) + |Holders(a.Held(), b'.checks.Keys, id)|
    {
      OneMoreHolder(a.Held(), b.checks.Keys, name, id);
    }
    AddsTwice(a.world.log, b.world.log, b'.world.log);
  }

  lemma AddsTwice(log: seq<Emission>, log': seq<Emission>, log'': seq<Emission>)
    requires AddsOnlyRestored(log, log') && AddsOnlyRestored(log', log'')
    ensures AddsOnlyRestored(log, log'')
  {
    assert forall i :: 0 <= i < |log'| ==> log''[i] == log'[i];
  }

  /** Only restored entries were added, and one more number was reserved on the event of `name`. */
  ghost predicate CountsOneMore(b: System, b': System, name: string) {
    && AddsOnlyRestored(b.world.log, b'.world.log)
    && forall id :: id in b.Held().Values ==>
         Lookup(b'.world.tracker.sequences, id, 0) ==
         Lookup(b.world.tracker.sequences, id, 0) + if name in b.Held() && b.Held()[name] == id then 1 else 0
  }

  /** A saved check holds an event exactly if it failed, so restoring it changes no event. */
  lemma RestoredHolds(b: System, step: Step)
    requires SystemSound(b) && FreshStep(b, step)
    requires step.Register? && step.name in b.store && step.name !in b.checks
    ensures var b' := Next(b, step);
            && b'.Held() == b.Held() && b'.used == b.used
            && b'.world.tracker.maintenanceName == b.world.tracker.maintenanceName
  {
    StepHolds(b, step);
    assert HeldNext(b, step) == b.Held();
    assert b.used + b.Held().Values == b.used;
  }

  /** One entry takes one number of its event and none of any other. */
  lemma EmitCounts(w: World, name: string, kind: Kind, status: Status, error: Option<string>, id: string, x: string)
    requires x != ""
    ensures var v := Emit(w, true, name, kind, status, error, id);
            && Lookup(v.tracker.sequences, x, 0) == Lookup(w.tracker.sequences, x, 0) + (if x == id then 1 else 0)
            && w.log <= v.log && (forall i :: |w.log| <= i < |v.log| ==> v.log[i].kind == kind)
  {
  }

  lemma RestoredWorld(b: System, step: Step)
    requires SystemSound(b) && FreshStep(b, step)
    requires step.Register? && step.name != "" && step.name in b.store && step.name !in b.checks
    ensures CountsOneMore(b, Next(b, step), step.name)
  {
    var name, w := step.name, Next(b, step).world;
    if name in b.Held() {
      var (t, id) := Attach(b.world.tracker, name, false, step.newID);
      AttachIsSimple(b.world.tracker, b.used, name, false, step.newID);
      var state := b.store[name];
      assert w == Emit(b.world.(tracker := t), true, name, Restored, state.status, Parse(state.errorMsg), id);
      assert id == b.Held()[name] && id in b.Held().Values;
      EmitCounts(b.world.(tracker := t), name, Restored, state.status, Parse(state.errorMsg), id, id);
      forall x | x in b.Held().Values
        ensures Lookup(w.tracker.sequences, x, 0) ==
                Lookup(b.world.tracker.sequences, x, 0) + if b.Held()[name] == x then 1 else 0
      {
        EmitCounts(b.world.(tracker := t), name, Restored, state.status, Parse(state.errorMsg), id, x);
      }
    } else {
      assert w == b.world;
    }
  }

  function NameSet(names: seq<string>): set<string> {
    set n | n in names
  }

  predicate Distinct(names: seq<string>) {
    forall i, j :: 0 <= i < j < |names| ==> names[i] != names[j]
  }

  lemma FirstName(names: seq<string>, done: set<string>)
    requires names != [] && Distinct(names) && NameSet(names) !! done
    ensures NameSet(names) == {names[0]} + NameSet(names[1..]) && Distinct(names[1..])
    ensures names[0] !in done && NameSet(names[1..]) !! done + {names[0]}
    ensures done + {names[0]} + NameSet(names[1..]) == done + NameSet(names)
  {
    assert names == [names[0]] + names[1..];
  }

  lemma {:induction false} AllRestored(a: System, b: System, now: Time, names: seq<string>,
                                       configs: map<string, Config>, ids: seq<string>)
    requires Reachable(b) && Restoring(a, b, now) && AllConfigured(a, configs) && |ids| == |names|
    requires NameSet(names) <= a.checks.Keys && NameSet(names) !! b.checks.Keys && Distinct(names) && "" !in a.checks
    requires forall n :: n in a.checks ==> Begun(a.checks[n])
    requires forall i :: 0 <= i < |names| ==> names[i] in configs
    requires FreshRun(b, Registrations(names, configs, ids))
    ensures var b' := Run(b, Registrations(names, configs, ids));
            Restoring(a, b', now) && b'.checks.Keys == b.checks.Keys + NameSet(names)
    decreases |names|
  {
    if names == [] {
      assert NameSet(names) == {};
    } else {
      var steps, rest := Registrations(names, configs, ids), Registrations(names[1..], configs, ids[1..]);
      assert steps[1..] == rest;
      FirstName(names, b.checks.Keys);
      OneMoreRestored(a, b, now, steps[0]);
      ReachableNext(b, steps[0]);
      AllRestored(a, Next(b, steps[0]), now, names[1..], configs, ids[1..]);
    }
  }

  lemma RestoredIsRestoring(a: System, b: System, now: Time, names: seq<string>, configs: map<string, Config>,
                            ids: seq<string>)
    requires Reachable(a) && RestoredFrom(a, b, now, names, configs, ids)
    ensures Reachable(b) && Restoring(a, b, now) && b.checks.Keys == a.checks.Keys
  {
    var b0 := Next(a, Restart(now));
    ReachableIsSound(a);
    RestartFirst(a, now, Registrations(names, configs, ids));
    RestoreBegins(a, now);
    AllRestored(a, b0, now, names, configs, ids);
  }

  lemma {:induction false} RestartFirst(a: System, now: Time, regs: seq<Step>)
    requires Reachable(a) && FreshRun(a, [Restart(now)] + regs)
    ensures var b0 := Next(a, Restart(now));
            && Reachable(b0) && FreshRun(b0, regs)
            && Run(a, [Restart(now)] + regs) == Run(b0, regs) && Reachable(Run(b0, regs))
  {
    assert ([Restart(now)] + regs)[1..] == regs;
    ReachableNext(a, Restart(now));
    ReachableGoesOn(a, [Restart(now)] + regs);
  }

  /** How far the restored process is ahead on each event: one restored notification for every
      check that held the event when the process stopped. */
  function Ahead(a: System): map<string, nat> {
    map id | id in a.Held().Values :: |Holders(a.Held(), a.checks.Keys, id)|
  }

  lemma RestoredMirrors(a: System, b: System, now: Time)
    requires SystemSound(a) && SystemSound(b) && Restoring(a, b, now) && b.checks.Keys == a.checks.Keys
    ensures Mirrors(a, b, map x | x in a.used :: x, Ahead(a))
  {
    var same := map x | x in a.used :: x;
    UnchangedNames(a, same);
    RestoredMatch(a, b, now);
    RestoredCounters(a, b, now, same);
  }

  lemma RestoredCounters(a: System, b: System, now: Time, same: map<string, string>)
    requires Restoring(a, b, now) && b.checks.Keys == a.checks.Keys
    requires forall x :: x in a.Held().Values ==> x in same && same[x] == x
    ensures CountersAlike(a.world.tracker.sequences, b.world.tracker.sequences, a.Held().Values, same, Ahead(a))
  {
    forall x | x in a.Held().Values
      ensures Lookup(b.world.tracker.sequences, same[x], 0) ==
              Lookup(a.world.tracker.sequences, x, 0) + Lookup(Ahead(a), x, 0)
    {
      assert x in Ahead(a);
    }
  }

  lemma RestoredMatch(a: System, b: System, now: Time)
    requires Restoring(a, b, now) && b.checks.Keys == a.checks.Keys
    ensures ChecksMatch(a, b)
  {
    assert SavedChecks(a.checks, now).Keys == a.checks.Keys;
  }

  lemma UnchangedNames(a: System, same: map<string, string>)
    requires SystemSound(a) && same == map x | x in a.used :: x
    ensures Injective(same) && same.Keys == a.used && same.Values == a.used && Ahead(a).Keys <= same.Keys
    ensures HeldAlike(a.Held(), a.Held(), same)
  {
    assert forall x :: x in a.used ==> same[x] == x;
    assert forall c :: c in a.Held() ==> a.Held()[c] in a.Held().Values;
  }

  /** `b` is the process that was restored from what `a` saved when it stopped, with every check
      registered again under its configuration. */
  ghost predicate RestoredFrom(a: System, b: System, now: Time, names: seq<string>, configs: map<string, Config>,
                               ids: seq<string>) {
    && AllConfigured(a, configs) && |ids| == |names|
    && NameSet(names) == a.checks.Keys && Distinct(names)
    && (forall i :: 0 <= i < |names| ==> names[i] in configs)
    && FreshRun(a, [Restart(now)] + Registrations(names, configs, ids))
    && b == Run(a, [Restart(now)] + Registrations(names, configs, ids))
  }

  /** The futures `t` of the stopped process and `t'` of the restored one cannot be told apart but
      for the names of events minted since, and numbers that are ahead. */
  ghost predicate Indistinguishable(a: System, b: System, t: System, t': System) {
    exists ren: map<string, string> :: AlikeBy(a, b, t, t', ren)
  }

  ghost predicate AlikeBy(a: System, b: System, t: System, t': System, ren: map<string, string>) {
    SameStateBy(a, t, t', ren) && LogsAlike(t.world.log, |a.world.log|, t'.world.log, |b.world.log|, ren, Ahead(a))
  }

  /** The same checks are in the same states and hold the same events, new ones up to their names. */
  ghost predicate SameStateBy(a: System, t: System, t': System, ren: map<string, string>) {
    && Injective(ren) && (forall x :: x in a.used ==> x in ren && ren[x] == x)
    && t'.checks.Keys == t.checks.Keys && (forall n :: n in t.checks ==> SameCheck(t.checks[n], t'.checks[n]))
    && HeldAlike(t.Held(), t'.Held(), ren)
  }

  ghost predicate SameState(a: System, t: System, t': System) {
    exists ren: map<string, string> :: SameStateBy(a, t, t', ren)
  }

  /** The checks that had not crossed a threshold when the process stopped, and whose first crossing in
      the future is a critical that asks to be announced. */
  ghost function LostAlerts(a: System, future: seq<Step>): set<string> {
    set n | n in a.checks && !a.checks[n].initialized && StartsLoud(a.checks[n], Delivered(future, n))
  }

  lemma LosersAreLostAlerts(a: System, b: System, now: Time, future: seq<Step>)
    requires Restoring(a, b, now) && b.checks.Keys == a.checks.Keys
    ensures Losers(a, b, future) == LostAlerts(a, future)
  {
  }

  lemma ExtendingKeepsNames(a: System, ren: map<string, string>)
    requires Extending(map x | x in a.used :: x, ren)
    ensures forall x :: x in a.used ==> x in ren && ren[x] == x
  {
    var same := map x | x in a.used :: x;
    assert forall x :: x in a.used ==> x in same;
  }

  /** For every future list of timed results and registrations, the process restored from a snapshot
      records the same statuses and holds the same events as the one that stopped would have, having
      announced only restored incidents before; it hands over one entry less for every lost alert. */
  lemma {:induction false} RestoredProcessKeepsState(
    a: System, b: System, now: Time, names: seq<string>, configs: map<string, Config>, ids: seq<string>,
    future: seq<Step>, newIDs: seq<string>)
    requires Reachable(a) && RestoredFrom(a, b, now, names, configs, ids)
    requires NoRestarts(future) && |newIDs| == |future|
    requires FreshRun(a, future) && FreshRun(b, WithIDs(future, newIDs))
    ensures AddsOnlyRestored(a.world.log, b.world.log)
    ensures SameState(a, Run(a, future), Run(b, WithIDs(future, newIDs)))
    ensures |Run(a, future).world.log| - |a.world.log| ==
            |Run(b, WithIDs(future, newIDs)).world.log| - |b.world.log| + |LostAlerts(a, future)|
  {
    RestoredPair(a, b, now, names, configs, ids);
    LosersAreLostAlerts(a, b, now, future);
    RunAdds(a, b, future, newIDs);
    var ren := RunShadows(a, b, map x | x in a.used :: x, future, newIDs);
    ExtendingKeepsNames(a, ren);
    assert SameStateBy(a, Run(a, future), Run(b, WithIDs(future, newIDs)), ren);
  }

  lemma {:induction false} NothingLostNothingDiffers(
    a: System, b: System, now: Time, names: seq<string>, configs: map<string, Config>, ids: seq<string>,
    future: seq<Step>, newIDs: seq<string>)
    requires Reachable(a) && RestoredFrom(a, b, now, names, configs, ids)
    requires NoRestarts(future) && |newIDs| == |future|
    requires FreshRun(a, future) && FreshRun(b, WithIDs(future, newIDs))
    requires LostAlerts(a, future) == {}
    ensures Indistinguishable(a, b, Run(a, future), Run(b, WithIDs(future, newIDs)))
  {
    RestoredPair(a, b, now, names, configs, ids);
    LosersAreLostAlerts(a, b, now, future);
    var ren := RunMirrors(a, b, map x | x in a.used :: x, Ahead(a), future, newIDs);
    ExtendingKeepsNames(a, ren);
    assert AlikeBy(a, b, Run(a, future), Run(b, WithIDs(future, newIDs)), ren);
  }

  lemma RestoredPair(a: System, b: System, now: Time, names: seq<string>, configs: map<string, Config>,
                     ids: seq<string>)
    requires Reachable(a) && RestoredFrom(a, b, now, names, configs, ids)
    ensures Restoring(a, b, now) && b.checks.Keys == a.checks.Keys && Mirrors(a, b, map x | x in a.used :: x, Ahead(a))
  {
    ReachableIsSound(a);
    RestoredIsRestoring(a, b, now, names, configs, ids);
    ReachableIsSound(b);
    RestoredMirrors(a, b, now);
  }

  /** ... and it cannot be told apart from the one that stopped exactly if no alert is lost: the first
      crossing of every check that had none when the snapshot was taken is no unsilenced critical. */
  lemma {:induction false} RestoredProcessBehavesLikeStopped(
    a: System, b: System, now: Time, names: seq<string>, configs: map<string, Config>, ids: seq<string>,
    future: seq<Step>, newIDs: seq<string>)
    requires Reachable(a) && RestoredFrom(a, b, now, names, configs, ids)
    requires NoRestarts(future) && |newIDs| == |future|
    requires FreshRun(a, future) && FreshRun(b, WithIDs(future, newIDs))
    ensures Indistinguishable(a, b, Run(a, future), Run(b, WithIDs(future, newIDs))) <==>
            forall n :: n in a.checks && !a.checks[n].initialized ==> !StartsLoud(a.checks[n], Delivered(future, n))
  {
    if LostAlerts(a, future) == {} {
      NothingLostNothingDiffers(a, b, now, names, configs, ids, future, newIDs);
      assert forall n :: n in a.checks && !a.checks[n].initialized && StartsLoud(a.checks[n], Delivered(future, n)) ==>
                           n in LostAlerts(a, future);
    } else {
      RestoredProcessKeepsState(a, b, now, names, configs, ids, future, newIDs);
      var n :| n in LostAlerts(a, future);
      LogsThatDiffer(a, b, Run(a, future), Run(b, WithIDs(future, newIDs)));
    }
  }

  lemma LogsThatDiffer(a: System, b: System, t: System, t': System)
    requires |t.world.log| - |a.world.log| != |t'.world.log| - |b.world.log|
    ensures !Indistinguishable(a, b, t, t')
  {
  }

  /** A check is registered, the process is restarted before the first result, and the first result is
      critical: the process that stopped would have announced it, the restored one does not. */
  lemma RestartSwallowsTheFirstAlert(config: Config, clk: Clock)
    requires config.failuresBeforeCritical <= 1 && config.failure == None
    ensures var down := Result(Critical, Some("down"), false);
            var a := Next(Start("maintenance"), Step.Register("db", config, "e"));
            var b := Next(Next(a, Restart(0)), Step.Register("db", config, "x"));
            && Next(a, Deliver("db", down, "x", clk)).world.log ==
               a.world.log + [Emission("db", Transition, Critical, Some("down"), "e", 2)]
            && b.world.log == a.world.log + [Emission("db", Restored, Critical, Some(INITIALIZING), "e", 2)]
            && Next(b, Deliver("db", down, "x", clk)).world.log == b.world.log
  {
    var a := Next(Start("maintenance"), Step.Register("db", config, "e"));
    var b := Next(Next(a, Restart(0)), Step.Register("db", config, "x"));
    FirstProcess(config);
    SecondProcess(a, config);
    FirstCriticalVerdicts(config, clk);
    DeliverHandsOver(b, Deliver("db", Result(Critical, Some("down"), false), "x", clk));
  }

  /** The tracker once the check started its event and n numbers were given on it. */
  function Holding(n: nat): Tracker {
    Tracker("maintenance", map["db" := "e"], map["e" := n], "", false, {})
  }

  lemma FirstProcess(config: Config)
    ensures var a := Next(Start("maintenance"), Step.Register("db", config, "e"));
            && a.checks == map["db" := UpdaterFrom(config)]
            && a.world == World(Holding(1), [Emission("db", Initial, Initializing, None, "e", 1)])
  {
  }

  lemma SecondProcess(a: System, config: Config)
    requires a.checks == map["db" := UpdaterFrom(config)] && a.world.tracker == Holding(1)
    ensures var b := Next(Next(a, Restart(0)), Step.Register("db", config, "x"));
            && b.checks == map["db" := Reloaded(UpdaterFrom(config), config, 0)]
            && b.world.tracker == Holding(2)
            && b.world.log == a.world.log + [Emission("db", Restored, Critical, Some(INITIALIZING), "e", 2)]
  {
    var b := Next(a, Restart(0));
    assert b.store["db"] == Save(UpdaterFrom(config), 0) && b.world == a.world && b.checks == map[];
    RegisteredAgain(b, config);
  }

  lemma RegisteredAgain(b: System, config: Config)
    requires "db" in b.store && b.store["db"] == Save(UpdaterFrom(config), 0)
    requires b.checks == map[] && b.world.tracker == Holding(1)
    ensures var c := Next(b, Step.Register("db", config, "x"));
            && c.checks == map["db" := Reloaded(UpdaterFrom(config), config, 0)]
            && c.world.tracker == Holding(2)
            && c.world.log == b.world.log + [Emission("db", Restored, Critical, Some(INITIALIZING), "e", 2)]
  {
    assert Attach(Holding(1), "db", false, "x") == (Holding(1), "e");
    assert Holding(1).sequences["e" := 2] == Holding(2).sequences;
  }

  lemma FirstCriticalVerdicts(config: Config, clk: Clock)
    requires config.failuresBeforeCritical <= 1 && config.failure == None
    ensures var r, u := Result(Critical, Some("down"), false), UpdaterFrom(config);
            var v, v' := Judge(u, r, clk), Judge(Reloaded(u, config, 0), r, clk);
            v.crossed && v.announce && !v.act && v'.crossed && !v'.announce && !v'.act
  {
  }

  // ---------------------------------------------------------------- reopened from the database

  predicate OnWholeSecond(a: Option<ActionState>) {
    a.Some? ==> a.value.lastRun >= 0 && a.value.lastRun % SECOND == 0
  }

  /** Every last run of the saved check fell on a whole second. */
  predicate KeptByRow(c: CheckState) {
    && c.runner.Some?
    && var r := c.runner.value;
       OnWholeSecond(r.success) && OnWholeSecond(r.warning) && OnWholeSecond(r.failure) && OnWholeSecond(r.timeout)
  }

  /** The store as it is read back from its rows. */
  function Reopened(s: System): System {
    s.(store := map n | n in s.store :: Rows.Normal(s.store[n]))
  }

  /** The systems differ at most in when the stored states were saved. */
  ghost predicate SameButTimes(s: System, s': System) {
    && s' == s.(store := s'.store) && s'.store.Keys == s.store.Keys
    && forall n :: n in s.store ==> s'.store[n] == s.store[n].(updatedAt := s'.store[n].updatedAt)
  }

  /** Where all last runs fell on whole seconds, a process that reads the rows does in every future what one
      with an exact store does, so the theorems above hold of a restart through the database. */
  lemma {:induction false} ReopenedBehavesLikeExact(s: System, steps: seq<Step>)
    requires forall n :: n in s.store ==> KeptByRow(s.store[n])
    ensures SameButTimes(Run(s, steps), Run(Reopened(s), steps))
  {
    forall n | n in s.store
      ensures Reopened(s).store[n] == s.store[n].(updatedAt := Reopened(s).store[n].updatedAt)
    {
      NormalKeepsAllButTime(s.store[n]);
    }
    TimesAreNotRead(s, Reopened(s), steps);
  }

  lemma NormalKeepsAllButTime(c: CheckState)
    requires KeptByRow(c)
    ensures Rows.Normal(c) == c.(updatedAt := Rows.Whole(c.updatedAt))
  {
  }

  lemma {:induction false} TimesAreNotRead(s: System, s': System, steps: seq<Step>)
    requires SameButTimes(s, s')
    ensures SameButTimes(Run(s, steps), Run(s', steps))
    decreases |steps|
  {
    if steps != [] {
      StepReadsNoTimes(s, s', steps[0]);
      TimesAreNotRead(Next(s, steps[0]), Next(s', steps[0]), steps[1..]);
    }
  }

  lemma StepReadsNoTimes(s: System, s': System, step: Step)
    requires SameButTimes(s, s')
    ensures SameButTimes(Next(s, step), Next(s', step))
  {
    if step.Register? && step.name in s.store {
      LoadReadsNoTime(step.name, UpdaterFrom(step.config), s.world, s.store[step.name], s'.store[step.name],
                      step.newID);
    }
  }

  lemma LoadReadsNoTime(name: string, u: Updater, w: World, c: CheckState, c': CheckState, newID: string)
    requires c' == c.(updatedAt := c'.updatedAt)
    ensures Resume(name, u, w, c', newID) == Resume(name, u, w, c, newID)
  {
  }
}
