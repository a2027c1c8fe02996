/** Two systems fed the same steps with different new event IDs: they keep the same events up to
    their names, the same statuses, and hand over the same entries with shifted numbers, but for
    the first alert of a check that the second one restored early. */
module Simulation {
  import opened Types
  import opened Events
  import opened Actions
  import opened Updates
  import opened Containers
  import opened Ledger
  import opened Invariants
  import opened Debounce
  import opened RestoredChecks

  // ---------------------------------------------------------------- two systems that mirror each other

  /** The second system's name for an event of the first. */
  function Renamed(ren: map<string, string>, id: string): string {
    if id == "" then "" else Lookup(ren, id, "")
  }

  ghost predicate Injective(ren: map<string, string>) {
    forall x, y :: x in ren && y in ren && ren[x] == ren[y] ==> x == y
  }

  ghost predicate Extending(ren: map<string, string>, ren': map<string, string>) {
    forall x :: x in ren ==> x in ren' && ren'[x] == ren[x]
  }

  ghost predicate HeldAlike(held: map<string, string>, held': map<string, string>, ren: map<string, string>) {
    && held'.Keys == held.Keys
    && forall c :: c in held ==> held[c] != "" && held[c] in ren && held'[c] == ren[held[c]]
  }

  /** Entries of two logs agree but for event names and shifted numbers. */
  ghost predicate Echoes(e: Emission, e': Emission, ren: map<string, string>, shift: map<string, nat>) {
    && e' == e.(eventID := e'.eventID, sequence := e'.sequence)
    && (e.eventID != "" ==> e.eventID in ren)
    && e'.eventID == Renamed(ren, e.eventID)
    && e'.sequence == e.sequence + (if e.eventID == "" then 0 else Lookup(shift, e.eventID, 0))
  }

  /** Two logs have grown alike since they had lengths n and n'. */
  ghost predicate LogsAlike(log: seq<Emission>, n: nat, log': seq<Emission>, n': nat, ren: map<string, string>,
                            shift: map<string, nat>) {
    && n <= |log| && |log'| - n' == |log| - n
    && forall i :: n <= i < |log| ==> Echoes(log[i], log'[n' + (i - n)], ren, shift)
  }

  /** Counters of the events in `live` differ by their shift. */
  ghost predicate CountersAlike(seqs: map<string, nat>, seqs': map<string, nat>, live: set<string>,
                                ren: map<string, string>, shift: map<string, nat>) {
    forall x :: x in live ==> x in ren && Lookup(seqs', ren[x], 0) == Lookup(seqs, x, 0) + Lookup(shift, x, 0)
  }

  /** The same checks are registered, alike, and the others are saved alike. */
  ghost predicate ChecksMatch(s: System, s': System) {
    && s'.checks.Keys == s.checks.Keys
    && (forall n :: n in s.checks ==> SameCheck(s.checks[n], s'.checks[n]))
    && (forall n :: n !in s.checks ==>
          (n in s.store <==> n in s'.store) && (n in s.store ==> s.store[n] == s'.store[n]))
  }

  /** The systems hold the same events, up to their names, for the same checks. */
  ghost predicate Shadows(s: System, s': System, ren: map<string, string>) {
    && SystemSound(s) && SystemSound(s')
    && s'.world.tracker.maintenanceName == s.world.tracker.maintenanceName
    && ChecksMatch(s, s')
    && Injective(ren) && ren.Keys <= s.used && ren.Values <= s'.used
    && HeldAlike(s.Held(), s'.Held(), ren)
  }

  /** ... and have counted alike on them, up to a shift. */
  ghost predicate Mirrors(s: System, s': System, ren: map<string, string>, shift: map<string, nat>) {
    && Shadows(s, s', ren) && shift.Keys <= ren.Keys
    && CountersAlike(s.world.tracker.sequences, s'.world.tracker.sequences, s.Held().Values, ren, shift)
  }

  /** The name of a newly minted event, if this call minted one. */
  function Grown(ren: map<string, string>, id: string, newID: string, newID': string): map<string, string> {
    if id == newID then ren[newID := newID'] else ren
  }

  lemma GrownIsInjective(ren: map<string, string>, id: string, newID: string, newID': string)
    requires Injective(ren) && newID' !in ren.Values
    ensures Injective(Grown(ren, id, newID, newID'))
  {
    assert forall x :: x in ren ==> ren[x] in ren.Values;
  }

  lemma HeldStaysAlike(held: map<string, string>, held': map<string, string>, ren: map<string, string>,
                       m: string, name: string, healthy: bool, newID: string, newID': string)
    requires HeldAlike(held, held', ren)
    requires newID != "" && newID !in ren
    ensures var (h, id) := SimpleAttach(held, m, name, healthy, newID);
            var (h', id') := SimpleAttach(held', m, name, healthy, newID');
            var ren' := Grown(ren, id, newID, newID');
            && HeldAlike(h, h', ren') && id' == Renamed(ren', id) && (id != "" ==> id in ren')
            && (id == "" || id == newID || id in held.Values)
  {
    if name in held {
      assert held[name] in held.Values;
    }
    if m in held {
      assert held[m] in held.Values;
    }
  }

  /** A new event starts with neither system having counted on it. */
  lemma CountersStayAlike(s: System, s': System, ren: map<string, string>, shift: map<string, nat>,
                          live: set<string>, id: string, newID: string, newID': string)
    requires Mirrors(s, s', ren, shift) && newID !in s.used && newID' !in s'.used
    requires live <= s.Held().Values + if id == newID then {newID} else {}
    ensures CountersAlike(s.world.tracker.sequences, s'.world.tracker.sequences, live, Grown(ren, id, newID, newID'),
                          shift)
  {
    assert newID !in s.world.tracker.sequences && newID' !in s'.world.tracker.sequences;
    assert newID !in shift;
  }

  /** The renaming after a call, by the simple trackers alone. */
  lemma RenamingStaysGood(s: System, s': System, ren: map<string, string>, name: string, healthy: bool,
                          newID: string, newID': string)
    requires Shadows(s, s', ren)
    requires newID != "" && newID !in s.used && newID' != "" && newID' !in s'.used
    ensures var m := s.world.tracker.maintenanceName;
            var (held, id) := SimpleAttach(s.Held(), m, name, healthy, newID);
            var (held', id') := SimpleAttach(s'.Held(), m, name, healthy, newID');
            var ren' := Grown(ren, id, newID, newID');
            && id' == Renamed(ren', id) && (id != "" ==> id in ren' && ren'[id] != "")
            && HeldAlike(held, held', ren') && Injective(ren') && Extending(ren, ren')
            && ren'.Keys <= s.used + held.Values && ren'.Values <= s'.used + held'.Values
  {
    var m := s.world.tracker.maintenanceName;
    HeldStaysAlike(s.Held(), s'.Held(), ren, m, name, healthy, newID, newID');
    HeldBeforeOrNow(s.Held(), m, name, healthy, newID);
    HeldBeforeOrNow(s'.Held(), m, name, healthy, newID');
    var id := SimpleAttach(s.Held(), m, name, healthy, newID).1;
    GrownIsInjective(ren, id, newID, newID');
    assert id in ren ==> ren[id] in ren.Values;
  }

  /** Both trackers after a call that the simple trackers answer. */
  lemma AttachAlike(s: System, s': System, ren: map<string, string>, shift: map<string, nat>, name: string,
                    healthy: bool, newID: string, newID': string, t: Tracker, id: string, t': Tracker, id': string)
    requires Mirrors(s, s', ren, shift)
    requires newID != "" && newID !in s.used && newID' != "" && newID' !in s'.used
    requires (t.eventIDs, id) == SimpleAttach(s.Held(), s.world.tracker.maintenanceName, name, healthy, newID)
    requires (t'.eventIDs, id') == SimpleAttach(s'.Held(), s.world.tracker.maintenanceName, name, healthy, newID')
    requires t.sequences == s.world.tracker.sequences && t'.sequences == s'.world.tracker.sequences
    ensures var ren' := Grown(ren, id, newID, newID');
            && id' == Renamed(ren', id) && (id != "" ==> id in ren' && ren'[id] != "")
            && HeldAlike(t.eventIDs, t'.eventIDs, ren') && Injective(ren')
            && CountersAlike(t.sequences, t'.sequences, t.eventIDs.Values + if id == "" then {} else {id}, ren', shift)
  {
    RenamingStaysGood(s, s', ren, name, healthy, newID, newID');
    HeldBeforeOrNow(s.Held(), s.world.tracker.maintenanceName, name, healthy, newID);
    CountersStayAlike(s, s', ren, shift, t.eventIDs.Values + if id == "" then {} else {id}, id, newID, newID');
  }

  lemma NumberAlike(seqs: map<string, nat>, seqs': map<string, nat>, live: set<string>, ren: map<string, string>,
                    shift: map<string, nat>, id: string)
    requires CountersAlike(seqs, seqs', live, ren, shift) && Injective(ren) && id in live
    ensures var n, n' := Lookup(seqs, id, 0) + 1, Lookup(seqs', ren[id], 0) + 1;
            n' == n + Lookup(shift, id, 0) && CountersAlike(seqs[id := n], seqs'[ren[id] := n'], live, ren, shift)
  {
  }

  lemma EmitAlike(w: World, w': World, live: set<string>, n: nat, n': nat, ren: map<string, string>,
                  shift: map<string, nat>, due: bool, name: string, kind: Kind, status: Status,
                  error: Option<string>, id: string)
    requires LogsAlike(w.log, n, w'.log, n', ren, shift) && Injective(ren)
    requires CountersAlike(w.tracker.sequences, w'.tracker.sequences, live, ren, shift)
    requires id != "" ==> id in live && ren[id] != ""
    ensures var v := Emit(w, due, name, kind, status, error, id);
            var v' := Emit(w', due, name, kind, status, error, Renamed(ren, id));
            && LogsAlike(v.log, n, v'.log, n', ren, shift)
            && CountersAlike(v.tracker.sequences, v'.tracker.sequences, live, ren, shift)
            && v.tracker.eventIDs == w.tracker.eventIDs && v'.tracker.eventIDs == w'.tracker.eventIDs
  {
    if due && id != "" {
      NumberAlike(w.tracker.sequences, w'.tracker.sequences, live, ren, shift, id);
    }
  }

  lemma ReleaseAlike(t: Tracker, t': Tracker, ren: map<string, string>, shift: map<string, nat>, id: string)
    requires Injective(ren) && HeldAlike(t.eventIDs, t'.eventIDs, ren) && (id != "" ==> id in ren)
    requires CountersAlike(t.sequences, t'.sequences, t.eventIDs.Values, ren, shift)
    ensures CountersAlike(Released(t, id).sequences, Released(t', Renamed(ren, id)).sequences, t.eventIDs.Values, ren,
                          shift)
  {
  }

  /** What a step may change, alike in both systems. */
  ghost predicate WorldsAlike(w: World, n: nat, w': World, n': nat, ren: map<string, string>, shift: map<string, nat>) {
    && HeldAlike(w.tracker.eventIDs, w'.tracker.eventIDs, ren)
    && CountersAlike(w.tracker.sequences, w'.tracker.sequences, w.tracker.eventIDs.Values, ren, shift)
    && LogsAlike(w.log, n, w'.log, n', ren, shift)
  }

  /** Everything after the event was found. */
  lemma RestAlike(w: World, w': World, n: nat, n': nat, ren: map<string, string>, shift: map<string, nat>, name: string,
                  r: Result, announce: bool, act: bool, id: string)
    requires n == |w.log| && n' == |w'.log| && Injective(ren)
    requires id != "" ==> id in ren && ren[id] != ""
    requires HeldAlike(w.tracker.eventIDs, w'.tracker.eventIDs, ren)
    requires CountersAlike(w.tracker.sequences, w'.tracker.sequences,
                           w.tracker.eventIDs.Values + if id == "" then {} else {id}, ren, shift)
    ensures var id' := Renamed(ren, id);
            WorldsAlike(
              Concluded(name, Emit(w, announce, name, Transition, r.status, r.error, id), r, act, id), n,
              Concluded(name, Emit(w', announce, name, Transition, r.status, r.error, id'), r, act, id'), n', ren,
              shift)
  {
    var id' := Renamed(ren, id);
    var live := w.tracker.eventIDs.Values + if id == "" then {} else {id};
    EmitAlike(w, w', live, n, n', ren, shift, announce, name, Transition, r.status, r.error, id);
    var w1 := Emit(w, announce, name, Transition, r.status, r.error, id);
    var w1' := Emit(w', announce, name, Transition, r.status, r.error, id');
    EmitAlike(w1, w1', live, n, n', ren, shift, act, name, ActionRun, r.status, r.error, id);
    var w2 := Emit(w1, act, name, ActionRun, r.status, r.error, id);
    var w2' := Emit(w1', act, name, ActionRun, r.status, r.error, id');
    ReleaseAlike(w2.tracker, w2'.tracker, ren, shift, id);
  }

  lemma SettledAlike(s: System, s': System, ren: map<string, string>, shift: map<string, nat>, name: string,
                     r: Result, announce: bool, act: bool, newID: string, newID': string)
    requires Mirrors(s, s', ren, shift)
    requires newID != "" && newID !in s.used && newID' != "" && newID' !in s'.used
    ensures var ren' := Grown(ren, AttachedTo(s, name, r.status == Passing, newID), newID, newID');
            WorldsAlike(Settled(name, s.world, r, announce, act, newID), |s.world.log|,
                        Settled(name, s'.world, r, announce, act, newID'), |s'.world.log|, ren', shift)
  {
    var (t, id) := Attach(s.world.tracker, name, r.status == Passing, newID);
    var (t', id') := Attach(s'.world.tracker, name, r.status == Passing, newID');
    AttachIsSimple(s.world.tracker, s.used, name, r.status == Passing, newID);
    AttachIsSimple(s'.world.tracker, s'.used, name, r.status == Passing, newID');
    AttachAlike(s, s', ren, shift, name, r.status == Passing, newID, newID', t, id, t', id');
    RestAlike(s.world.(tracker := t), s'.world.(tracker := t'), |s.world.log|, |s'.world.log|,
              Grown(ren, id, newID, newID'), shift, name, r, announce, act, id);
  }

  lemma AnnouncedAlike(s: System, s': System, ren: map<string, string>, shift: map<string, nat>, name: string,
                       kind: Kind, status: Status, error: Option<string>, newID: string, newID': string)
    requires Mirrors(s, s', ren, shift)
    requires newID != "" && newID !in s.used && newID' != "" && newID' !in s'.used
    ensures var (t, id) := Attach(s.world.tracker, name, false, newID);
            var (t', id') := Attach(s'.world.tracker, name, false, newID');
            WorldsAlike(Emit(s.world.(tracker := t), true, name, kind, status, error, id), |s.world.log|,
                        Emit(s'.world.(tracker := t'), true, name, kind, status, error, id'), |s'.world.log|,
                        Grown(ren, AttachedTo(s, name, false, newID), newID, newID'), shift)
  {
    var (t, id) := Attach(s.world.tracker, name, false, newID);
    var (t', id') := Attach(s'.world.tracker, name, false, newID');
    AttachIsSimple(s.world.tracker, s.used, name, false, newID);
    AttachIsSimple(s'.world.tracker, s'.used, name, false, newID');
    AttachAlike(s, s', ren, shift, name, false, newID, newID', t, id, t', id');
    EmitAlike(s.world.(tracker := t), s'.world.(tracker := t'), t.eventIDs.Values + if id == "" then {} else {id},
              |s.world.log|, |s'.world.log|, Grown(ren, id, newID, newID'), shift, true, name, kind, status, error, id);
  }

  // ---------------------------------------------------------------- steps and runs

  /** The same step, with the ID the other process's generator yields. */
  function WithID(step: Step, newID: string): Step {
    match step
    case Register(name, config, _) => Step.Register(name, config, newID)
    case Deliver(name, result, _, clock) => Step.Deliver(name, result, newID, clock)
    case Restart(now) => step
  }

  function WithIDs(steps: seq<Step>, ids: seq<string>): seq<Step>
    requires |ids| == |steps|
  {
    if steps == [] then [] else [WithID(steps[0], ids[0])] + WithIDs(steps[1..], ids[1..])
  }

  /** The event a call finds, by the simple tracker. */
  function AttachedTo(s: System, name: string, healthy: bool, newID: string): string {
    SimpleAttach(s.Held(), s.world.tracker.maintenanceName, name, healthy, newID).1
  }

  function RenamingNext(s: System, step: Step, ren: map<string, string>, newID': string): map<string, string>
    requires !step.Restart?
  {
    if Attaches(s, step) || Resolves(s, step)
    then Grown(ren, AttachedTo(s, step.name, Resolves(s, step), step.newID), step.newID, newID')
    else ren
  }

  /** A restored check does not announce its first crossing although the other one does. */
  predicate Misses(s: System, s': System, step: Step) {
    && step.Deliver? && step.name in s.checks && step.name in s'.checks
    && RestoredEarly(s.checks[step.name], s'.checks[step.name])
    && Judge(s.checks[step.name], step.result, step.clock).crossed && Loud(step.result)
  }

  lemma SameBranch(s: System, s': System, step: Step, newID': string)
    requires ChecksMatch(s, s')
    ensures Attaches(s, step) == Attaches(s', WithID(step, newID'))
            && Resolves(s, step) == Resolves(s', WithID(step, newID'))
  {
    if step.Deliver? && step.name in s.checks {
      JudgeAlike(s.checks[step.name], s'.checks[step.name], step.result, step.clock);
    }
  }

  /** What a step makes of one check. */
  lemma CheckNext(s: System, step: Step, n: string)
    requires !step.Restart?
    ensures var s' := Next(s, step);
            && s'.store == s.store
            && (n in s'.checks <==> n in s.checks || (step.Register? && step.name == n != ""))
            && (n in s.checks ==>
                  s'.checks[n] == if step.Deliver? && step.name == n
                                  then Judge(s.checks[n], step.result, step.clock).next else s.checks[n])
            && (n !in s.checks && n in s'.checks ==>
                  s'.checks[n] == if n in s.store then Load(UpdaterFrom(step.config), s.store[n])
                                  else UpdaterFrom(step.config))
  {
  }

  lemma StepKeepsMatch(s: System, s': System, step: Step, newID': string)
    requires ChecksMatch(s, s') && !step.Restart?
    ensures ChecksMatch(Next(s, step), Next(s', WithID(step, newID')))
  {
    var t, t' := Next(s, step), Next(s', WithID(step, newID'));
    forall n: string
      ensures n in t'.checks <==> n in t.checks
      ensures n in t.checks ==> SameCheck(t.checks[n], t'.checks[n])
      ensures n !in t.checks ==> (n in t.store <==> n in t'.store) && (n in t.store ==> t.store[n] == t'.store[n])
    {
      CheckNext(s, step, n);
      CheckNext(s', WithID(step, newID'), n);
      if n in s.checks && step.Deliver? {
        JudgeAlike(s.checks[n], s'.checks[n], step.result, step.clock);
      }
    }
  }

  lemma RenamingGrows(s: System, s': System, ren: map<string, string>, step: Step, newID': string)
    requires Shadows(s, s', ren) && !step.Restart?
    requires FreshStep(s, step) && FreshStep(s', WithID(step, newID'))
    requires Attaches(s, step) == Attaches(s', WithID(step, newID'))
             && Resolves(s, step) == Resolves(s', WithID(step, newID'))
    ensures var ren' := RenamingNext(s, step, ren, newID');
            && Injective(ren') && Extending(ren, ren')
            && HeldAlike(HeldNext(s, step), HeldNext(s', WithID(step, newID')), ren')
            && ren'.Keys <= s.used + HeldNext(s, step).Values
            && ren'.Values <= s'.used + HeldNext(s', WithID(step, newID')).Values
  {
    if Attaches(s, step) || Resolves(s, step) {
      RenamingStaysGood(s, s', ren, step.name, Resolves(s, step), step.newID, newID');
    }
  }

  lemma StepShadows(s: System, s': System, ren: map<string, string>, step: Step, newID': string)
    requires Shadows(s, s', ren) && !step.Restart?
    requires FreshStep(s, step) && FreshStep(s', WithID(step, newID'))
    ensures var ren' := RenamingNext(s, step, ren, newID');
            Shadows(Next(s, step), Next(s', WithID(step, newID')), ren') && Extending(ren, ren')
  {
    var step' := WithID(step, newID');
    SameBranch(s, s', step, newID');
    StepKeepsSound(s, step);
    StepKeepsSound(s', step');
    StepHolds(s, step);
    StepHolds(s', step');
    StepKeepsMatch(s, s', step, newID');
    RenamingGrows(s, s', ren, step, newID');
  }

  lemma DeliverAlike(s: System, s': System, ren: map<string, string>, shift: map<string, nat>, step: Step,
                     newID': string)
    requires Mirrors(s, s', ren, shift) && step.Deliver? && step.name in s.checks && !Misses(s, s', step)
    requires FreshStep(s, step) && FreshStep(s', WithID(step, newID'))
    ensures WorldsAlike(Next(s, step).world, |s.world.log|, Next(s', WithID(step, newID')).world, |s'.world.log|,
                        RenamingNext(s, step, ren, newID'), shift)
  {
    var name := step.name;
    var v := Judge(s.checks[name], step.result, step.clock);
    JudgeAlike(s.checks[name], s'.checks[name], step.result, step.clock);
    DeliverWorld(s, step, v);
    DeliverWorld(s', WithID(step, newID'), Judge(s'.checks[name], step.result, step.clock));
    if v.crossed {
      SettledAlike(s, s', ren, shift, name, step.result, v.announce, v.act, step.newID, newID');
    } else {
      UntouchedAlike(s, s', ren, shift);
    }
  }

  lemma DeliverWorld(s: System, step: Step, v: Verdict)
    requires step.Deliver? && step.name in s.checks && v == Judge(s.checks[step.name], step.result, step.clock)
    ensures Next(s, step).world ==
            if v.crossed then Settled(step.name, s.world, step.result, v.announce, v.act, step.newID) else s.world
    ensures !v.crossed ==> !Attaches(s, step) && !Resolves(s, step)
    ensures v.crossed ==>
              (Attaches(s, step) || Resolves(s, step)) && Resolves(s, step) == (step.result.status == Passing)
  {
  }

  lemma UntouchedAlike(s: System, s': System, ren: map<string, string>, shift: map<string, nat>)
    requires Mirrors(s, s', ren, shift)
    ensures WorldsAlike(s.world, |s.world.log|, s'.world, |s'.world.log|, ren, shift)
  {
  }

  lemma RegisterAlike(s: System, s': System, ren: map<string, string>, shift: map<string, nat>, step: Step,
                      newID': string)
    requires Mirrors(s, s', ren, shift) && step.Register? && step.name != "" && step.name !in s.checks
    requires FreshStep(s, step) && FreshStep(s', WithID(step, newID'))
    ensures WorldsAlike(Next(s, step).world, |s.world.log|, Next(s', WithID(step, newID')).world, |s'.world.log|,
                        RenamingNext(s, step, ren, newID'), shift)
  {
    var name, entry := step.name, FirstEntry(s, step.name);
    RegisterWorld(s, step);
    RegisterWorld(s', WithID(step, newID'));
    if entry.Some? {
      AnnouncedAlike(s, s', ren, shift, name, entry.value.0, entry.value.1, entry.value.2, step.newID, newID');
    } else {
      UntouchedAlike(s, s', ren, shift);
    }
  }

  lemma StepMirrors(s: System, s': System, ren: map<string, string>, shift: map<string, nat>, step: Step,
                    newID': string)
    requires Mirrors(s, s', ren, shift) && !step.Restart? && !Misses(s, s', step)
    requires FreshStep(s, step) && FreshStep(s', WithID(step, newID'))
    ensures var ren' := RenamingNext(s, step, ren, newID');
            var t, t' := Next(s, step), Next(s', WithID(step, newID'));
            && Mirrors(t, t', ren', shift) && Extending(ren, ren')
            && LogsAlike(t.world.log, |s.world.log|, t'.world.log, |s'.world.log|, ren', shift)
  {
    StepShadows(s, s', ren, step, newID');
    if step.Deliver? && step.name in s.checks {
      DeliverAlike(s, s', ren, shift, step, newID');
    } else if step.Register? && step.name != "" && step.name !in s.checks {
      RegisterAlike(s, s', ren, shift, step, newID');
    }
  }

  lemma LogsAlikeTwice(log: seq<Emission>, n: nat, m: nat, log': seq<Emission>, n': nat, m': nat,
                       log1: seq<Emission>, log1': seq<Emission>,
                       ren: map<string, string>, ren1: map<string, string>, shift: map<string, nat>)
    requires LogsAlike(log, n, log', n', ren, shift) && m == |log| && m' == |log'|
    requires LogsAlike(log1, m, log1', m', ren1, shift) && Extending(ren, ren1)
    requires log <= log1 && log' <= log1'
    ensures LogsAlike(log1, n, log1', n', ren1, shift)
  {
    forall i | n <= i < |log1|
      ensures Echoes(log1[i], log1'[n' + (i - n)], ren1, shift)
    {
      if i < m {
        assert Echoes(log[i], log'[n' + (i - n)], ren, shift);
      } else {
        assert Echoes(log1[i], log1'[m' + (i - m)], ren1, shift);
      }
    }
  }

  predicate NoRestarts(steps: seq<Step>) {
    forall i :: 0 <= i < |steps| ==> !steps[i].Restart?
  }

  // ---------------------------------------------------------------- what an early snapshot loses

  /** How many entries a step hands over. */
  function Adds(s: System, step: Step): nat {
    match step
    case Register(name, _, _) =>
      if name != "" && name !in s.checks && (name in s.store ==> Failing(s.store[name].status)) then 1 else 0
    case Deliver(name, r, _, clock) =>
      if name in s.checks then
        var v := Judge(s.checks[name], r, clock);
        (if v.announce then 1 else 0) + (if v.act then 1 else 0)
      else 0
    case Restart(_) => 0
  }

  lemma StepAdds(s: System, step: Step)
    ensures |Next(s, step).world.log| == |s.world.log| + Adds(s, step)
  {
    if step.Deliver? && step.name in s.checks {
      DeliverHandsOver(s, step);
    }
  }

  lemma AddsAlike(s: System, s': System, step: Step, newID': string)
    requires ChecksMatch(s, s')
    ensures Adds(s, step) == Adds(s', WithID(step, newID')) + if Misses(s, s', step) then 1 else 0
  {
    if step.Deliver? && step.name in s.checks {
      JudgeAlike(s.checks[step.name], s'.checks[step.name], step.result, step.clock);
    }
  }

  /** The check was restored early and its first crossing in this run is a loud critical. */
  ghost predicate IsLoser(s: System, s': System, steps: seq<Step>, n: string) {
    n in s.checks && n in s'.checks && RestoredEarly(s.checks[n], s'.checks[n])
    && StartsLoud(s.checks[n], Delivered(steps, n))
  }

  ghost function Losers(s: System, s': System, steps: seq<Step>): set<string> {
    set n | n in s.checks && IsLoser(s, s', steps, n)
  }

  lemma LoserNext(s: System, s': System, steps: seq<Step>, newID': string, n: string)
    requires ChecksMatch(s, s') && steps != [] && !steps[0].Restart?
    ensures var later := IsLoser(Next(s, steps[0]), Next(s', WithID(steps[0], newID')), steps[1..], n);
            if Misses(s, s', steps[0]) && n == steps[0].name then IsLoser(s, s', steps, n) && !later
            else IsLoser(s, s', steps, n) == later
  {
    var step := steps[0];
    CheckNext(s, step, n);
    CheckNext(s', WithID(step, newID'), n);
    DeliveredFirst(steps, n);
    if n in s.checks && step.Deliver? && step.name == n {
      JudgeAlike(s.checks[n], s'.checks[n], step.result, step.clock);
      StartsLoudFirst(s.checks[n], Delivered(steps, n));
      assert Delivered(steps, n)[1..] == Delivered(steps[1..], n);
    } else if !step.Deliver? || step.name != n {
      assert Delivered(steps, n) == Delivered(steps[1..], n);
    }
  }

  lemma LosersNext(s: System, s': System, steps: seq<Step>, newID': string)
    requires ChecksMatch(s, s') && steps != [] && !steps[0].Restart?
    ensures var all := Losers(s, s', steps);
            var rest := Losers(Next(s, steps[0]), Next(s', WithID(steps[0], newID')), steps[1..]);
            rest <= all && |all| == |rest| + if Misses(s, s', steps[0]) then 1 else 0
  {
    var missed := if Misses(s, s', steps[0]) then {steps[0].name} else {};
    forall n: string
    {
      LoserNext(s, s', steps, newID', n);
    }
    OneMoreLoser(s, s', steps, Next(s, steps[0]), Next(s', WithID(steps[0], newID')), steps[1..], missed);
  }

  lemma OneMoreLoser(s: System, s': System, steps: seq<Step>, t: System, t': System, rest: seq<Step>,
                     missed: set<string>)
    requires |missed| <= 1
    requires forall n :: if n in missed then IsLoser(s, s', steps, n) && !IsLoser(t, t', rest, n)
                         else IsLoser(s, s', steps, n) == IsLoser(t, t', rest, n)
    ensures Losers(t, t', rest) <= Losers(s, s', steps)
    ensures |Losers(s, s', steps)| == |Losers(t, t', rest)| + |missed|
  {
    assert Losers(s, s', steps) == Losers(t, t', rest) + missed && Losers(t, t', rest) !! missed;
  }

  /** Every loser's first alert is the only entry the second system leaves out. */
  lemma {:induction false} RunAdds(s: System, s': System, steps: seq<Step>, ids: seq<string>)
    requires ChecksMatch(s, s') && NoRestarts(steps) && |ids| == |steps|
    ensures |Run(s, steps).world.log| - |s.world.log| ==
            |Run(s', WithIDs(steps, ids)).world.log| - |s'.world.log| + |Losers(s, s', steps)|
    decreases |steps|
  {
    if steps == [] {
      assert forall n :: Delivered(steps, n) == [];
      assert Losers(s, s', steps) == {};
    } else {
      var step' := WithID(steps[0], ids[0]);
      assert WithIDs(steps, ids)[1..] == WithIDs(steps[1..], ids[1..]);
      StepKeepsMatch(s, s', steps[0], ids[0]);
      StepAdds(s, steps[0]);
      StepAdds(s', step');
      AddsAlike(s, s', steps[0], ids[0]);
      LosersNext(s, s', steps, ids[0]);
      RunAdds(Next(s, steps[0]), Next(s', step'), steps[1..], ids[1..]);
    }
  }

  /** Whatever is delivered and registered, the systems hold the same events for the same checks and
      record the same statuses. */
  lemma {:induction false} RunShadows(s: System, s': System, ren: map<string, string>, steps: seq<Step>,
                                      ids: seq<string>)
    returns (ren1: map<string, string>)
    requires Shadows(s, s', ren) && NoRestarts(steps) && |ids| == |steps|
    requires FreshRun(s, steps) && FreshRun(s', WithIDs(steps, ids))
    ensures Shadows(Run(s, steps), Run(s', WithIDs(steps, ids)), ren1) && Extending(ren, ren1)
    decreases |steps|
  {
    if steps == [] {
      ren1 := ren;
    } else {
      var step' := WithID(steps[0], ids[0]);
      assert WithIDs(steps, ids)[1..] == WithIDs(steps[1..], ids[1..]);
      StepShadows(s, s', ren, steps[0], ids[0]);
      ren1 := RunShadows(Next(s, steps[0]), Next(s', step'), RenamingNext(s, steps[0], ren, ids[0]), steps[1..],
                         ids[1..]);
    }
  }

  /** Without losers, everything handed over is alike. */
  lemma {:induction false} RunMirrors(s: System, s': System, ren: map<string, string>, shift: map<string, nat>,
                                      steps: seq<Step>, ids: seq<string>)
    returns (ren1: map<string, string>)
    requires Mirrors(s, s', ren, shift) && NoRestarts(steps) && |ids| == |steps|
    requires FreshRun(s, steps) && FreshRun(s', WithIDs(steps, ids))
    requires Losers(s, s', steps) == {}
    ensures var t, t' := Run(s, steps), Run(s', WithIDs(steps, ids));
            && Mirrors(t, t', ren1, shift) && Extending(ren, ren1)
            && LogsAlike(t.world.log, |s.world.log|, t'.world.log, |s'.world.log|, ren1, shift)
    decreases |steps|
  {
    if steps == [] {
      ren1 := ren;
    } else {
      var step' := WithID(steps[0], ids[0]);
      var t, t' := Next(s, steps[0]), Next(s', step');
      var rest, rest' := steps[1..], WithIDs(steps[1..], ids[1..]);
      assert WithIDs(steps, ids)[1..] == rest';
      LosersNext(s, s', steps, ids[0]);
      StepMirrors(s, s', ren, shift, steps[0], ids[0]);
      var ren0 := RenamingNext(s, steps[0], ren, ids[0]);
      ren1 := RunMirrors(t, t', ren0, shift, rest, ids[1..]);
      RunKeepsLog(t, rest);
      RunKeepsLog(t', rest');
      LogsAlikeTwice(t.world.log, |s.world.log|, |t.world.log|, t'.world.log, |s'.world.log|, |t'.world.log|,
                     Run(t, rest).world.log, Run(t', rest').world.log, ren0, ren1, shift);
    }
  }
}
