/** What every step of the system keeps: tracker, log and checks agree in every reachable state. */
module Invariants {
  import opened Types
  import opened Events
  import opened Actions
  import opened Updates
  import opened Containers
  import opened Ledger

  /** How many entries of the log carry this event. */
  function Issued(log: seq<Emission>, id: string): nat {
    if log == [] then 0
    else Issued(log[..|log| - 1], id) + if log[|log| - 1].eventID == id then 1 else 0
  }

  /** Every numbered entry carries the next number of its event. */
  ghost predicate Consecutive(log: seq<Emission>) {
    forall i :: 0 <= i < |log| && log[i].eventID != "" ==>
      log[i].sequence == Issued(log[..i], log[i].eventID) + 1
  }

  ghost predicate WorldSound(w: World, used: set<string>) {
    var t := w.tracker;
    && Sound(t, used)
    && Consecutive(w.log)
    && (forall i :: 0 <= i < |w.log| ==> w.log[i].eventID == "" || w.log[i].eventID in used)
    && (forall id :: id in t.eventIDs.Values ==> Lookup(t.sequences, id, 0) == Issued(w.log, id))
    && t.sequences.Keys <= t.eventIDs.Values
  }

  /** A check is recorded as passing exactly when it holds no event; a check of an earlier
      process that is not registered yet is represented by its saved state. */
  ghost predicate Agrees(status: Status, held: map<string, string>, name: string) {
    status != Initializing && (status == Passing <==> name !in held)
  }

  /** Until its first crossing a check is recorded as the critical it started with. */
  predicate Begun(u: Updater) {
    u.initialized || u.status == Critical
  }

  ghost predicate ChecksSound(s: System) {
    && (forall n :: n in s.checks ==> Agrees(s.checks[n].status, s.Held(), n) && Begun(s.checks[n]))
    && (forall n :: n in s.store && n !in s.checks ==> Agrees(s.store[n].status, s.Held(), n))
    && s.Held().Keys <= s.checks.Keys + s.store.Keys && "" !in s.checks
  }

  ghost predicate SystemSound(s: System) {
    WorldSound(s.world, s.used) && ChecksSound(s)
  }

  /** The counters after k numbers were reserved on an event, and it was released or not. */
  function Counted(seqs: map<string, nat>, id: string, k: nat): map<string, nat> {
    if id == "" || k == 0 then seqs else seqs[id := Lookup(seqs, id, 0) + k]
  }

  /** Entries of one event were handed over, carrying its next numbers; nothing else changed. */
  ghost predicate Extends(w: World, w': World, name: string, id: string) {
    && w.log <= w'.log
    && w'.tracker == w.tracker.(sequences := Counted(w.tracker.sequences, id, |w'.log| - |w.log|))
    && forall i :: |w.log| <= i < |w'.log| ==>
         && w'.log[i].check == name && w'.log[i].eventID == id
         && w'.log[i].sequence == if id == "" then 0 else Lookup(w.tracker.sequences, id, 0) + 1 + i - |w.log|
  }

  /** The one way a step can change what is shared: `name` is attached to an event or released
      from it, entries of that event are handed over, and a healthy check may drop the counter. */
  ghost predicate Moved(w: World, w': World, name: string, healthy: bool, newID: string) {
    var (t, id) := Attach(w.tracker, name, healthy, newID);
    exists w1: World :: Extends(w.(tracker := t), w1, name, id)
                     && w' == if healthy then w1.(tracker := Released(w1.tracker, id)) else w1
  }

  /** Whether a step is a pass that reaches its threshold, which is when events end. */
  predicate Resolves(s: System, step: Step) {
    && step.Deliver? && step.name in s.checks && step.result.status == Passing
    && Judge(s.checks[step.name], step.result, step.clock).crossed
  }

  /** Whether a step attaches its check to an event: it starts, is restored as failing, or
      fails up to its threshold. */
  predicate Attaches(s: System, step: Step) {
    match step
    case Register(name, _, _) =>
      name != "" && name !in s.checks && (name in s.store ==> Failing(s.store[name].status))
    case Deliver(name, r, _, clock) =>
      name in s.checks && r.status != Passing && Judge(s.checks[name], r, clock).crossed
    case Restart(_) => false
  }

  lemma EmitExtends(w: World, due: bool, name: string, kind: Kind, status: Status, error: Option<string>, id: string)
    ensures Extends(w, Emit(w, due, name, kind, status, error, id), name, id)
  {
  }

  lemma ExtendsTwice(w: World, w1: World, w2: World, name: string, id: string)
    requires Extends(w, w1, name, id) && Extends(w1, w2, name, id)
    ensures Extends(w, w2, name, id)
  {
    assert w2.log[..|w1.log|] == w1.log;
  }

  lemma SettledMoves(name: string, w: World, r: Result, announce: bool, act: bool, newID: string)
    ensures Moved(w, Settled(name, w, r, announce, act, newID), name, r.status == Passing, newID)
  {
    var (t, id) := Attach(w.tracker, name, r.status == Passing, newID);
    var w0 := w.(tracker := t);
    var w1 := Emit(w0, announce, name, Transition, r.status, r.error, id);
    var w2 := Emit(w1, act, name, ActionRun, r.status, r.error, id);
    EmitExtends(w0, announce, name, Transition, r.status, r.error, id);
    EmitExtends(w1, act, name, ActionRun, r.status, r.error, id);
    ExtendsTwice(w0, w1, w2, name, id);
  }

  lemma AnnouncedMoves(name: string, w: World, kind: Kind, status: Status, error: Option<string>, newID: string)
    ensures var (t, id) := Attach(w.tracker, name, false, newID);
            Moved(w, Emit(w.(tracker := t), true, name, kind, status, error, id), name, false, newID)
  {
    var (t, id) := Attach(w.tracker, name, false, newID);
    EmitExtends(w.(tracker := t), true, name, kind, status, error, id);
  }

  lemma StepMoves(s: System, step: Step)
    ensures if Attaches(s, step) || Resolves(s, step)
            then Moved(s.world, Next(s, step).world, step.name, Resolves(s, step), step.newID)
            else Next(s, step).world == s.world
  {
    match step
    case Restart(now) =>
    case Register(name, config, newID) =>
      AnnouncedMoves(name, s.world, Initial, Initializing, None, newID);
      if name in s.store {
        AnnouncedMoves(name, s.world, Restored, s.store[name].status, Parse(s.store[name].errorMsg), newID);
      }
    case Deliver(name, r, newID, clock) =>
      if name in s.checks {
        var v := Judge(s.checks[name], r, clock);
        SettledMoves(name, s.world, r, v.announce, v.act, newID);
      }
  }

  /** Appending k entries of one event counts k more of it and none of any other. */
  lemma {:induction false} IssuedGrows(log: seq<Emission>, log': seq<Emission>, id: string, other: string)
    requires log <= log' && forall i :: |log| <= i < |log'| ==> log'[i].eventID == id
    ensures Issued(log', other) == Issued(log, other) + if other == id then |log'| - |log| else 0
    decreases |log'|
  {
    if |log'| == |log| {
      assert log' == log;
    } else {
      IssuedGrows(log, log'[..|log'| - 1], id, other);
    }
  }

  lemma {:induction false} NoneIssued(log: seq<Emission>, id: string)
    requires forall i :: 0 <= i < |log| ==> log[i].eventID != id
    ensures Issued(log, id) == 0
    decreases |log|
  {
    if log != [] {
      NoneIssued(log[..|log| - 1], id);
    }
  }

  /** The counter of the event a step works on is the number of its entries so far. */
  lemma CounterIsCount(w: World, used: set<string>, name: string, healthy: bool, newID: string)
    requires WorldSound(w, used) && newID != "" && newID !in used
    ensures var id := Attach(w.tracker, name, healthy, newID).1;
            id != "" ==> Lookup(w.tracker.sequences, id, 0) == Issued(w.log, id)
  {
    AttachIsSimple(w.tracker, used, name, healthy, newID);
    var id := Attach(w.tracker, name, healthy, newID).1;
    if id == newID {
      NoneIssued(w.log, id);
    } else if id != "" {
      assert id in w.tracker.eventIDs.Values;
    }
  }

  lemma {:induction false} ExtendsKeepsLog(w: World, w': World, name: string, id: string)
    requires Extends(w, w', name, id) && Consecutive(w.log)
    requires id != "" ==> Lookup(w.tracker.sequences, id, 0) == Issued(w.log, id)
    ensures Consecutive(w'.log)
  {
    forall i | 0 <= i < |w'.log| && w'.log[i].eventID != ""
      ensures w'.log[i].sequence == Issued(w'.log[..i], w'.log[i].eventID) + 1
    {
      if i < |w.log| {
        assert w'.log[i] == w.log[i] && w'.log[..i] == w.log[..i];
      } else {
        IssuedGrows(w.log, w'.log[..i], id, id);
      }
    }
  }

  lemma {:induction false} ExtendsKeepsCounts(w: World, w': World, name: string, id: string, x: string)
    requires Extends(w, w', name, id) && x != ""
    requires Lookup(w.tracker.sequences, x, 0) == Issued(w.log, x)
    ensures Lookup(w'.tracker.sequences, x, 0) == Issued(w'.log, x)
  {
    IssuedGrows(w.log, w'.log, id, x);
  }

  /** Attaching or releasing keeps the soundness of the world but for the counter of the event
      that a healthy check releases, which is dropped at the end of the step. */
  lemma MovedKeepsWorld(w: World, w': World, used: set<string>, name: string, healthy: bool, newID: string)
    requires WorldSound(w, used) && Moved(w, w', name, healthy, newID)
    requires newID != "" && newID !in used
    ensures WorldSound(w', used + w'.tracker.eventIDs.Values)
  {
    var (t, id) := Attach(w.tracker, name, healthy, newID);
    var w0 := w.(tracker := t);
    var w1: World :| Extends(w0, w1, name, id)
                  && w' == if healthy then w1.(tracker := Released(w1.tracker, id)) else w1;
    AttachIsSimple(w.tracker, used, name, healthy, newID);
    CounterIsCount(w, used, name, healthy, newID);
    ExtendsKeepsLog(w0, w1, name, id);
    HeldBeforeOrNow(w.tracker.eventIDs, w.tracker.maintenanceName, name, healthy, newID);
    forall x | x in t.eventIDs.Values
      ensures Lookup(w'.tracker.sequences, x, 0) == Issued(w'.log, x)
    {
      ExtendsKeepsCounts(w0, w1, name, id, x);
    }
  }

  /** Every event held after a call was held before it, or is the one the call is about; the
      other way round the released event is the only one that may go. */
  lemma HeldBeforeOrNow(held: map<string, string>, maintenance: string, name: string, healthy: bool, newID: string)
    ensures var (held', id) := SimpleAttach(held, maintenance, name, healthy, newID);
            && (forall x :: x in held'.Values ==> x in held.Values || x == id)
            && (forall x :: x in held.Values ==> x in held'.Values || x == id)
            && (if healthy then id == "" || id in held.Values else id in held'.Values)
  {
    var (held', id) := SimpleAttach(held, maintenance, name, healthy, newID);
    forall x | x in held.Values
      ensures x in held'.Values || x == id
    {
      var c :| c in held && held[c] == x;
      if c != name { assert held'[c] == x; }
    }
    if !healthy { assert held'[name] == id; }
  }

  /** What a registration announces, if anything: kind, status and error. */
  function FirstEntry(s: System, name: string): Option<(Kind, Status, Option<string>)> {
    if name !in s.store then Some((Initial, Initializing, None))
    else if Failing(s.store[name].status) then
      Some((Restored, s.store[name].status, Parse(s.store[name].errorMsg)))
    else None
  }

  lemma RegisterWorld(s: System, step: Step)
    requires step.Register? && step.name != "" && step.name !in s.checks
    ensures var entry, (t, id) := FirstEntry(s, step.name), Attach(s.world.tracker, step.name, false, step.newID);
            && (entry.None? ==> Next(s, step).world == s.world)
            && (entry.Some? ==> Next(s, step).world == Emit(s.world.(tracker := t), true, step.name, entry.value.0,
                                                            entry.value.1, entry.value.2, id))
    ensures Attaches(s, step) == FirstEntry(s, step.name).Some? && !Resolves(s, step)
  {
  }

  lemma StepKeepsSound(s: System, step: Step)
    requires SystemSound(s) && FreshStep(s, step)
    ensures SystemSound(Next(s, step))
  {
    StepMoves(s, step);
    var s' := Next(s, step);
    if s'.world != s.world {
      MovedKeepsWorld(s.world, s'.world, s.used, step.name, Resolves(s, step), step.newID);
    } else {
      assert s.used + s.Held().Values == s.used;
    }
    StepKeepsChecks(s, step);
  }

  /** The event map after a step, by the simple tracker. */
  function HeldNext(s: System, step: Step): map<string, string> {
    if Attaches(s, step) || Resolves(s, step) then
      SimpleAttach(s.Held(), s.world.tracker.maintenanceName, step.name, Resolves(s, step), step.newID).0
    else s.Held()
  }

  lemma StepHolds(s: System, step: Step)
    requires SystemSound(s) && FreshStep(s, step)
    ensures Next(s, step).Held() == HeldNext(s, step)
    ensures Next(s, step).world.tracker.maintenanceName == s.world.tracker.maintenanceName
    ensures Next(s, step).used == s.used + HeldNext(s, step).Values
  {
    StepMoves(s, step);
    if Attaches(s, step) || Resolves(s, step) {
      AttachIsSimple(s.world.tracker, s.used, step.name, Resolves(s, step), step.newID);
    } else {
      assert s.used + s.Held().Values == s.used;
    }
  }

  lemma StepKeepsChecks(s: System, step: Step)
    requires SystemSound(s) && FreshStep(s, step)
    ensures ChecksSound(Next(s, step))
  {
    var s' := Next(s, step);
    StepHolds(s, step);
    if step.Restart? {
      RestartKeepsChecks(s, step);
    } else if step.Register? && step.name != "" && step.name !in s.checks {
      RegisterKeepsOthers(s, step);
      OneCheckChanges(s, s', step.name);
    } else if step.Deliver? && step.name in s.checks {
      DeliverKeepsOthers(s, step);
      OneCheckChanges(s, s', step.name);
    }
  }

  lemma OneCheckChanges(s: System, s': System, name: string)
    requires ChecksSound(s) && name != ""
    requires s'.checks.Keys == s.checks.Keys + {name} && s'.store == s.store
    requires forall n :: n in s.checks && n != name ==> s'.checks[n] == s.checks[n]
    requires forall n :: n != name ==> (n in s'.Held() <==> n in s.Held())
    requires Agrees(s'.checks[name].status, s'.Held(), name) && Begun(s'.checks[name])
    ensures ChecksSound(s')
  {
  }

  lemma RestartKeepsChecks(s: System, step: Step)
    requires SystemSound(s) && step.Restart?
    ensures ChecksSound(Next(s, step))
  {
    var s' := Next(s, step);
    assert s'.Held() == s.Held();
    assert s'.store.Keys == s.store.Keys + s.checks.Keys;
  }

  lemma RegisterKeepsOthers(s: System, step: Step)
    requires step.Register? && step.name != "" && step.name !in s.checks
    ensures var s' := Next(s, step);
            && s'.checks.Keys == s.checks.Keys + {step.name} && s'.store == s.store
            && (forall n :: n in s.checks ==> s'.checks[n] == s.checks[n])
            && Begun(s'.checks[step.name])
            && s'.checks[step.name].status == if step.name in s.store then s.store[step.name].status else Critical
  {
  }

  lemma DeliverKeepsOthers(s: System, step: Step)
    requires step.Deliver? && step.name in s.checks
    ensures var s' := Next(s, step);
            var v := Judge(s.checks[step.name], step.result, step.clock);
            && s'.checks.Keys == s.checks.Keys && s'.store == s.store
            && (forall n :: n in s.checks && n != step.name ==> s'.checks[n] == s.checks[n])
            && s'.checks[step.name] == v.next && (Begun(s.checks[step.name]) ==> Begun(v.next))
            && v.next.status == if v.crossed then step.result.status else s.checks[step.name].status
  {
  }

  lemma {:induction false} RunKeepsSound(s: System, steps: seq<Step>)
    requires SystemSound(s) && FreshRun(s, steps)
    ensures SystemSound(Run(s, steps))
    decreases |steps|
  {
    if steps != [] {
      StepKeepsSound(s, steps[0]);
      RunKeepsSound(Next(s, steps[0]), steps[1..]);
    }
  }

  lemma {:induction false} RunKeepsLog(s: System, steps: seq<Step>)
    requires SystemSound(s) && FreshRun(s, steps)
    ensures s.world.log <= Run(s, steps).world.log
    decreases |steps|
  {
    if steps != [] {
      StepMoves(s, steps[0]);
      StepKeepsSound(s, steps[0]);
      RunKeepsLog(Next(s, steps[0]), steps[1..]);
    }
  }

  lemma ReachableIsSound(s: System)
    requires Reachable(s)
    ensures SystemSound(s)
  {
    var name: string, steps: seq<Step> :| FreshRun(Start(name), steps) && s == Run(Start(name), steps);
    RunKeepsSound(Start(name), steps);
  }

  /** Steps after steps. */
  lemma {:induction false} RunAppends(s: System, a: seq<Step>, b: seq<Step>)
    ensures Run(s, a + b) == Run(Run(s, a), b)
    ensures FreshRun(s, a + b) <==> FreshRun(s, a) && FreshRun(Run(s, a), b)
    decreases |a|
  {
    if a == [] {
      assert a + b == b;
    } else {
      assert (a + b)[1..] == a[1..] + b;
      RunAppends(Next(s, a[0]), a[1..], b);
    }
  }

  lemma {:induction false} ReachableGoesOn(s: System, steps: seq<Step>)
    requires Reachable(s) && FreshRun(s, steps)
    ensures Reachable(Run(s, steps))
  {
    var name: string, before: seq<Step> :| FreshRun(Start(name), before) && s == Run(Start(name), before);
    RunAppends(Start(name), before, steps);
    assert FreshRun(Start(name), before + steps) && Run(s, steps) == Run(Start(name), before + steps);
  }

  lemma ReachableNext(s: System, step: Step)
    requires Reachable(s) && FreshStep(s, step)
    ensures Reachable(Next(s, step))
  {
    var steps := [step];
    assert steps[1..] == [];
    assert Run(s, steps) == Run(Next(s, step), []);
    assert FreshRun(Next(s, step), []);
    ReachableGoesOn(s, steps);
  }
}
