/** Claims over whole runs: every event's numbers, what happens to events, and what the
    handler answers. */
module Incidents {
  import opened Types
  import opened Events
  import opened Actions
  import opened Updates
  import opened Containers
  import opened Ledger
  import opened Invariants

  // ---------------------------------------------------------------- numbers

  /** The numbers issued on an event, in the order they were reserved. */
  function Numbers(log: seq<Emission>, id: string): seq<nat> {
    if log == [] then []
    else
      var last := log[|log| - 1];
      Numbers(log[..|log| - 1], id) + if last.eventID == id then [last.sequence] else []
  }

  /** Over any run of any number of checks, maintenance windows and restarts, the numbers of
      an event are exactly 1, 2, 3, ... in order. */
  lemma {:induction false} EventNumbersAreOneTwoThree(s: System, id: string)
    requires Reachable(s) && id != ""
    ensures Numbers(s.world.log, id) == seq(Issued(s.world.log, id), i => i + 1)
  {
    ReachableIsSound(s);
    NumbersOfConsecutive(s.world.log, id);
  }

  lemma {:induction false} NumbersOfConsecutive(log: seq<Emission>, id: string)
    requires Consecutive(log) && id != ""
    ensures Numbers(log, id) == seq(Issued(log, id), i => i + 1)
    decreases |log|
  {
    if log != [] {
      var front, last := log[..|log| - 1], log[|log| - 1];
      FrontIsConsecutive(log);
      NumbersOfConsecutive(front, id);
      if last.eventID == id {
        assert Numbers(log, id) == seq(Issued(front, id), i => i + 1) + [Issued(front, id) + 1];
      }
    }
  }

  lemma FrontIsConsecutive(log: seq<Emission>)
    requires Consecutive(log) && log != []
    ensures var front, last := log[..|log| - 1], log[|log| - 1];
            Consecutive(front) && (last.eventID != "" ==> last.sequence == Issued(front, last.eventID) + 1)
  {
    var front := log[..|log| - 1];
    assert forall i :: 0 <= i < |front| ==> front[i] == log[i] && front[..i] == log[..i];
  }

  /** No (event, number) pair is issued twice, and later entries of an event have larger numbers. */
  lemma LaterEntriesHaveLargerNumbers(s: System, i: nat, j: nat)
    requires Reachable(s)
    requires i < j < |s.world.log| && s.world.log[i].eventID == s.world.log[j].eventID != ""
    ensures s.world.log[i].sequence < s.world.log[j].sequence
  {
    ReachableIsSound(s);
    IssuedInOrder(s.world.log, i, j);
  }

  lemma {:induction false} IssuedInOrder(log: seq<Emission>, i: nat, j: nat)
    requires i < j <= |log|
    ensures Issued(log[..j], log[i].eventID) > Issued(log[..i], log[i].eventID)
    decreases j
  {
    var id := log[i].eventID;
    assert log[..j][..j - 1] == log[..j - 1];
    if j == i + 1 {
      assert log[..j][j - 1] == log[i];
    } else {
      IssuedInOrder(log, i, j - 1);
    }
  }

  /** No counter outlives its event, so there are at most as many as checks with an event. */
  lemma CountersBelongToHeldEvents(s: System)
    requires Reachable(s)
    ensures s.world.tracker.sequences.Keys <= s.Held().Values
    ensures |s.world.tracker.sequences| <= |s.Held()|
  {
    ReachableIsSound(s);
    var seqs, held := s.world.tracker.sequences, s.Held();
    SubsetSize(seqs.Keys, held.Values);
    ValuesSize(held);
  }

  lemma {:induction false} SubsetSize<T>(a: set<T>, b: set<T>)
    requires a <= b
    ensures |a| <= |b|
    decreases a
  {
    if a != {} {
      var x :| x in a;
      SubsetSize(a - {x}, b - {x});
    }
  }

  lemma {:induction false} ValuesSize(m: map<string, string>)
    ensures |m.Values| <= |m|
    decreases |m|
  {
    if m != map[] {
      var k :| k in m;
      var rest := m - {k};
      ValuesSize(rest);
      forall v | v in m.Values
        ensures v in rest.Values + {m[k]}
      {
        var c :| c in m && m[c] == v;
        if c != k { assert rest[c] == v; }
      }
      SubsetSize(m.Values, rest.Values + {m[k]});
    }
  }

  /** The log carries this number of the event at or after position `from`. */
  ghost predicate CarriesFrom(log: seq<Emission>, from: nat, id: string, n: nat) {
    exists i :: from <= i < |log| && log[i].eventID == id && log[i].sequence == n
  }

  /** A process that dies without saving and one restored from its older snapshot `s`, each minting IDs
      the other never mints: the numbers of an event that both issue since are exactly the ones up
      to the smaller count, and only on an event held in the snapshot. */
  lemma {:induction false} StaleSnapshotRepeatsNumbers(s: System, lost: seq<Step>, now: Time, steps: seq<Step>,
                                                       id: string)
    requires Reachable(s) && FreshRun(s, lost) && FreshRun(Next(s, Restart(now)), steps) && id != ""
    requires Run(s, lost).used - s.used !! Run(Next(s, Restart(now)), steps).used - s.used
    ensures var k, log := |s.world.log|, Run(s, lost).world.log;
            var log' := Run(Next(s, Restart(now)), steps).world.log;
            var before, nLost, nRestored := Issued(s.world.log, id), Issued(log, id), Issued(log', id);
            && (forall n: nat :: CarriesFrom(log, k, id, n) && CarriesFrom(log', k, id, n) <==>
                  id in s.Held().Values && before < n <= nLost && n <= nRestored)
            && ((exists n: nat :: CarriesFrom(log, k, id, n) && CarriesFrom(log', k, id, n)) <==>
                  id in s.Held().Values && before < nLost && before < nRestored)
  {
    var b := Next(s, Restart(now));
    ReachableIsSound(s);
    StepKeepsSound(s, Restart(now));
    NumbersSince(s, lost, id);
    NumbersSince(b, steps, id);
    assert b.world.log == s.world.log && b.Held() == s.Held() && b.used == s.used;
    var log, log' := Run(s, lost).world.log, Run(b, steps).world.log;
    if id in s.Held().Values && Issued(s.world.log, id) < Issued(log, id)
      && Issued(s.world.log, id) < Issued(log', id) {
      var n := Issued(s.world.log, id) + 1;
      assert CarriesFrom(log, |s.world.log|, id, n) && CarriesFrom(log', |s.world.log|, id, n);
    }
  }

  /** A run issues on an event exactly the numbers that follow those before it, and only if the event
      was held when it began or was minted in it. */
  lemma {:induction false} NumbersSince(s: System, steps: seq<Step>, id: string)
    requires SystemSound(s) && FreshRun(s, steps) && id != ""
    ensures var log, log' := s.world.log, Run(s, steps).world.log;
            && (forall n: nat :: CarriesFrom(log', |log|, id, n) <==> Issued(log, id) < n <= Issued(log', id))
            && (Issued(log, id) < Issued(log', id) ==> id in s.Held().Values || id in Run(s, steps).used - s.used)
  {
    var log, log' := s.world.log, Run(s, steps).world.log;
    RunKeepsSound(s, steps);
    RunKeepsLog(s, steps);
    forall n: nat
      ensures CarriesFrom(log', |log|, id, n) <==> Issued(log, id) < n <= Issued(log', id)
    {
      NumbersFrom(log, log', id, n);
    }
    if Issued(log, id) < Issued(log', id) {
      NumbersFrom(log, log', id, Issued(log, id) + 1);
      AddedAreHeldOrMinted(s, steps);
    }
  }

  lemma CarriesOneMore(log: seq<Emission>, from: nat, id: string, n: nat)
    requires from < |log|
    ensures var front, last := log[..|log| - 1], log[|log| - 1];
            CarriesFrom(log, from, id, n) <==>
              CarriesFrom(front, from, id, n) || (last.eventID == id && last.sequence == n)
  {
    assert forall i :: 0 <= i < |log| - 1 ==> log[..|log| - 1][i] == log[i];
  }

  lemma {:induction false} NumbersFrom(log: seq<Emission>, log': seq<Emission>, id: string, n: nat)
    requires log <= log' && Consecutive(log') && id != ""
    ensures CarriesFrom(log', |log|, id, n) <==> Issued(log, id) < n <= Issued(log', id)
    decreases |log'|
  {
    if |log'| == |log| {
      assert log' == log;
    } else {
      FrontIsConsecutive(log');
      NumbersFrom(log, log'[..|log'| - 1], id, n);
      IssuedIsMonotone(log, log'[..|log'| - 1], id);
      CarriesOneMore(log', |log|, id, n);
    }
  }

  /** The events of a later state were held before or minted since, and so were those of the entries. */
  ghost predicate HeldOrMinted(s: System, s': System) {
    && s.used <= s'.used && s.world.log <= s'.world.log
    && (forall x :: x in s'.Held().Values ==> x in s.Held().Values || x in s'.used - s.used)
    && (forall i :: |s.world.log| <= i < |s'.world.log| ==>
          var x := s'.world.log[i].eventID; x == "" || x in s.Held().Values || x in s'.used - s.used)
  }

  lemma StepHoldsOrMints(s: System, step: Step)
    requires SystemSound(s) && FreshStep(s, step)
    ensures HeldOrMinted(s, Next(s, step))
  {
    StepHolds(s, step);
    StepMoves(s, step);
    if Attaches(s, step) || Resolves(s, step) {
      AttachIsSimple(s.world.tracker, s.used, step.name, Resolves(s, step), step.newID);
      HeldBeforeOrNow(s.Held(), s.world.tracker.maintenanceName, step.name, Resolves(s, step), step.newID);
    }
  }

  lemma HeldOrMintedTwice(s: System, s1: System, s2: System)
    requires HeldOrMinted(s, s1) && HeldOrMinted(s1, s2)
    ensures HeldOrMinted(s, s2)
  {
    assert forall i :: 0 <= i < |s1.world.log| ==> s2.world.log[i] == s1.world.log[i];
  }

  lemma {:induction false} AddedAreHeldOrMinted(s: System, steps: seq<Step>)
    requires SystemSound(s) && FreshRun(s, steps)
    ensures HeldOrMinted(s, Run(s, steps))
    decreases |steps|
  {
    if steps != [] {
      StepHoldsOrMints(s, steps[0]);
      StepKeepsSound(s, steps[0]);
      AddedAreHeldOrMinted(Next(s, steps[0]), steps[1..]);
      HeldOrMintedTwice(s, Next(s, steps[0]), Run(s, steps));
    }
  }

  lemma {:induction false} IssuedIsMonotone(log: seq<Emission>, log': seq<Emission>, id: string)
    requires log <= log'
    ensures Issued(log, id) <= Issued(log', id)
    decreases |log'|
  {
    if |log'| == |log| {
      assert log' == log;
    } else {
      IssuedIsMonotone(log, log'[..|log'| - 1], id);
    }
  }

  // ---------------------------------------------------------------- events

  /** In every reachable state the tracker's extra map says exactly who shares the maintenance
      event, so a check without an event is never in it: the branch for checks that failed
      during maintenance that has ended is never taken. */
  lemma MaintenanceChecksAreTheSharers(s: System, name: string)
    requires Reachable(s)
    ensures s.world.tracker.maintenanceChecks == Sharers(s.world.tracker)
    ensures name !in s.Held() ==> name !in s.world.tracker.maintenanceChecks
  {
    ReachableIsSound(s);
  }

  /** The stored maintenance event changes only when maintenance starts, to the event it then holds, and
      when the last holder after maintenance lets go, to none ... */
  lemma MaintenanceEventAfter(s: System, step: Step)
    requires Reachable(s) && FreshStep(s, step)
    ensures var t, t' := s.world.tracker, Next(s, step).world.tracker;
            var m, id := t.maintenanceName, t.maintenanceEventID;
            t'.maintenanceEventID ==
            (if m !in t.eventIDs && m in t'.eventIDs then t'.eventIDs[m]
             else if m !in t.eventIDs && id in t.eventIDs.Values && id !in t'.eventIDs.Values then ""
             else id)
  {
    ReachableIsSound(s);
    StepMoves(s, step);
    if Attaches(s, step) || Resolves(s, step) {
      StoredEventAfter(s.world.tracker, s.used, step.name, Resolves(s, step), step.newID);
    }
  }

  /** ... so it is cleared exactly then; an event that nobody shares when maintenance ends is left over. */
  lemma MaintenanceEventIsClearedByLastSharer(s: System, step: Step)
    requires Reachable(s) && FreshStep(s, step) && s.world.tracker.maintenanceEventID != ""
    ensures var t, t' := s.world.tracker, Next(s, step).world.tracker;
            var m, id := t.maintenanceName, t.maintenanceEventID;
            t'.maintenanceEventID == "" <==>
              m !in t.eventIDs && m !in t'.eventIDs && id in t.eventIDs.Values && id !in t'.eventIDs.Values
  {
    var m, t' := s.world.tracker.maintenanceName, Next(s, step).world.tracker;
    MaintenanceEventAfter(s, step);
    ReachableNext(s, step);
    ReachableIsSound(Next(s, step));
    assert m in t'.eventIDs ==> t'.eventIDs[m] in t'.eventIDs.Values;
  }

  lemma StoredEventAfter(t: Tracker, used: set<string>, name: string, healthy: bool, newID: string)
    requires Sound(t, used) && newID != "" && newID !in used
    ensures var t' := Attach(t, name, healthy, newID).0;
            var m, id := t.maintenanceName, t.maintenanceEventID;
            t'.maintenanceEventID ==
            (if m !in t.eventIDs && m in t'.eventIDs then t'.eventIDs[m]
             else if m !in t.eventIDs && id in t.eventIDs.Values && id !in t'.eventIDs.Values then ""
             else id)
  {
    var (t', ended) := Attach(t, name, healthy, newID);
    HeldBeforeOrNow(t.eventIDs, t.maintenanceName, name, healthy, newID);
    AttachIsSimple(t, used, name, healthy, newID);
    if healthy && name in t.eventIDs {
      assert t.eventIDs[name] in t.eventIDs.Values;
    }
  }

  /** A check that does not hold a used event gets it only from running maintenance. */
  lemma StepNeverRejoins(s: System, step: Step, name: string, id: string)
    requires SystemSound(s) && FreshStep(s, step) && id in s.used
    requires Lookup(s.Held(), s.world.tracker.maintenanceName, "") != id && Lookup(s.Held(), name, "") != id
    ensures var s' := Next(s, step);
            && Lookup(s'.Held(), s.world.tracker.maintenanceName, "") != id && Lookup(s'.Held(), name, "") != id
            && id in s'.used && s'.world.tracker.maintenanceName == s.world.tracker.maintenanceName
  {
    StepHolds(s, step);
  }

  /** A later incident of a check carries an earlier event again only out of the same maintenance
      window: in every state before it the maintenance check held that event. */
  lemma {:induction false} LaterIncidentIsNew(s: System, steps: seq<Step>, name: string, id: string)
    requires Reachable(s) && FreshRun(s, steps) && id in s.used
    requires Lookup(s.Held(), name, "") != id && Lookup(Run(s, steps).Held(), name, "") == id
    ensures Lookup(s.Held(), s.world.tracker.maintenanceName, "") == id
  {
    ReachableIsSound(s);
    RejoinsOnlyMaintenance(s, steps, name, id);
  }

  lemma {:induction false} RejoinsOnlyMaintenance(s: System, steps: seq<Step>, name: string, id: string)
    requires SystemSound(s) && FreshRun(s, steps) && id in s.used
    requires Lookup(s.Held(), name, "") != id && Lookup(Run(s, steps).Held(), name, "") == id
    ensures Lookup(s.Held(), s.world.tracker.maintenanceName, "") == id
    decreases |steps|
  {
    if steps != [] && Lookup(s.Held(), s.world.tracker.maintenanceName, "") != id {
      StepNeverRejoins(s, steps[0], name, id);
      StepKeepsSound(s, steps[0]);
      RejoinsOnlyMaintenance(Next(s, steps[0]), steps[1..], name, id);
    }
  }

  /** An event no check holds any more is never attached again, a leftover maintenance event
      included. */
  lemma {:induction false} ReleasedEventNeverReturns(s: System, steps: seq<Step>, id: string)
    requires Reachable(s) && FreshRun(s, steps)
    requires id in s.used && id !in s.Held().Values
    ensures id !in Run(s, steps).Held().Values
  {
    ReachableIsSound(s);
    forall c | c in Run(s, steps).Held()
      ensures Run(s, steps).Held()[c] != id
    {
      assert Lookup(s.Held(), c, "") != id;
      if Run(s, steps).Held()[c] == id {
        LaterIncidentIsNew(s, steps, c, id);
      }
    }
  }

  /** No step of the run is a resolution of this check. */
  predicate Unresolved(s: System, steps: seq<Step>, name: string)
    decreases |steps|
  {
    steps == [] ||
    (!(Resolves(s, steps[0]) && steps[0].name == name) && Unresolved(Next(s, steps[0]), steps[1..], name))
  }

  /** The entries a run added for one check all carry this event. */
  ghost predicate Carries(before: seq<Emission>, after: seq<Emission>, name: string, id: string) {
    && before <= after
    && forall i :: |before| <= i < |after| && after[i].check == name ==> after[i].eventID == id
  }

  lemma StepKeepsEvent(s: System, step: Step, name: string)
    requires SystemSound(s) && FreshStep(s, step)
    requires name in s.Held() && !(Resolves(s, step) && step.name == name)
    ensures var s' := Next(s, step);
            && name in s'.Held() && s'.Held()[name] == s.Held()[name]
            && Carries(s.world.log, s'.world.log, name, s.Held()[name])
  {
    StepHolds(s, step);
    StepMoves(s, step);
    if !step.Restart? {
      AttachIsSimple(s.world.tracker, s.used, step.name, Resolves(s, step), step.newID);
    }
  }

  /** Whatever other checks, maintenance and restarts do, a check keeps its event, and all its
      entries carry it, until a pass of its own reaches the threshold. */
  lemma {:induction false} EventIsStable(s: System, steps: seq<Step>, name: string)
    requires SystemSound(s) && FreshRun(s, steps)
    requires name in s.Held() && Unresolved(s, steps, name)
    ensures var s' := Run(s, steps);
            && name in s'.Held() && s'.Held()[name] == s.Held()[name]
            && Carries(s.world.log, s'.world.log, name, s.Held()[name])
    decreases |steps|
  {
    if steps != [] {
      var s1 := Next(s, steps[0]);
      StepKeepsEvent(s, steps[0], name);
      StepKeepsSound(s, steps[0]);
      EventIsStable(s1, steps[1..], name);
      var log := Run(s1, steps[1..]).world.log;
      assert forall i :: |s.world.log| <= i < |s1.world.log| ==> log[i] == s1.world.log[i];
    }
  }

  /** A resolution: the check lets go of its event, and is announced as passing unless the
      result asks for silence. */
  lemma ResolutionEndsEvent(s: System, step: Step)
    requires SystemSound(s) && FreshStep(s, step) && Resolves(s, step) && step.name in s.Held()
    ensures var s' := Next(s, step);
            && step.name !in s'.Held() && s.world.log <= s'.world.log
            && (forall i :: |s.world.log| <= i < |s'.world.log| ==> s'.world.log[i].eventID == s.Held()[step.name])
            && (!step.result.noNotification ==>
                  |s.world.log| < |s'.world.log|
                  && s'.world.log[|s.world.log|].kind == Transition && s'.world.log[|s.world.log|].status == Passing)
  {
    StepHolds(s, step);
    StepMoves(s, step);
    AttachIsSimple(s.world.tracker, s.used, step.name, true, step.newID);
    if !step.result.noNotification {
      ResolutionIsAnnounced(s, step);
    }
  }

  lemma ResolutionIsAnnounced(s: System, step: Step)
    requires Resolves(s, step) && s.checks[step.name].status != Passing && !step.result.noNotification
    ensures var log := Next(s, step).world.log;
            && |s.world.log| < |log| && log[|s.world.log|].kind == Transition
            && log[|s.world.log|].status == Passing
  {
  }

  /** From any state in which a check holds an event: everything it hands over up to and
      including its resolution carries that event, and the resolution's entries have larger
      numbers than all before them. */
  lemma {:induction false} ResolutionMatchesItsAlerts(s: System, steps: seq<Step>, last: Step, name: string)
    requires Reachable(s) && FreshRun(s, steps + [last])
    requires name in s.Held() && Unresolved(s, steps, name)
    requires Resolves(Run(s, steps), last) && last.name == name
    ensures var id := s.Held()[name];
            var middle, end := Run(s, steps).world.log, Run(s, steps + [last]).world.log;
            && s.world.log <= middle <= end
            && (forall i :: |s.world.log| <= i < |end| && end[i].check == name ==> end[i].eventID == id)
            && (forall i, j :: 0 <= i < |middle| <= j < |end| && end[i].eventID == id ==>
                  end[i].sequence < end[j].sequence)
            && (!last.result.noNotification ==> |middle| < |end|)
            && name !in Run(s, steps + [last]).Held()
  {
    var id := s.Held()[name];
    ReachableIsSound(s);
    OneMoreStep(s, steps, last);
    RunKeepsSound(s, steps);
    EventIsStable(s, steps, name);
    ResolutionEndsEvent(Run(s, steps), last);
    assert id in s.Held().Values;
    TailHasLargerNumbers(Run(s, steps + [last]), |Run(s, steps).world.log|, id);
  }

  lemma {:induction false} OneMoreStep(s: System, steps: seq<Step>, last: Step)
    requires Reachable(s) && FreshRun(s, steps + [last])
    ensures FreshRun(s, steps) && FreshStep(Run(s, steps), last)
    ensures Run(s, steps + [last]) == Next(Run(s, steps), last) && Reachable(Run(s, steps + [last]))
  {
    RunAppends(s, steps, [last]);
    assert Run(Run(s, steps), [last]) == Next(Run(s, steps), last);
    assert FreshRun(Run(s, steps), [last]);
    ReachableGoesOn(s, steps + [last]);
  }

  lemma TailHasLargerNumbers(s: System, k: nat, id: string)
    requires Reachable(s) && id != "" && k <= |s.world.log|
    requires forall j :: k <= j < |s.world.log| ==> s.world.log[j].eventID == id
    ensures forall i, j :: 0 <= i < k <= j < |s.world.log| && s.world.log[i].eventID == id ==>
              s.world.log[i].sequence < s.world.log[j].sequence
  {
    forall i, j | 0 <= i < k <= j < |s.world.log| && s.world.log[i].eventID == id
      ensures s.world.log[i].sequence < s.world.log[j].sequence
    {
      LaterEntriesHaveLargerNumbers(s, i, j);
    }
  }

  // ---------------------------------------------------------------- statuses

  /** A registered check is recorded as passing exactly when the tracker holds no event for it;
      for the maintenance check that is exactly when maintenance is not active. */
  lemma PassingMeansNoEvent(s: System, name: string)
    requires Reachable(s) && name in s.checks
    ensures s.checks[name].status == Passing <==> name !in s.Held()
    ensures name == s.world.tracker.maintenanceName ==>
              (s.world.tracker.maintenanceActive <==> s.checks[name].status != Passing)
  {
    ReachableIsSound(s);
  }

  /** The handler answers 200 exactly when no registered check holds an event; once every saved
      check is registered (in a first process, always), exactly when there are no active events. */
  lemma HandlerAnswersOkExactlyWithoutEvents(s: System, status: Status)
    requires Reachable(s) && IsWorst(status, s.checks)
    ensures Code(status) == 200 <==> s.checks.Keys !! s.Held().Keys
    ensures s.store.Keys <= s.checks.Keys ==> (Code(status) == 200 <==> s.Held() == map[])
  {
    ReachableIsSound(s);
    if status != Passing {
      var n :| n in s.checks && s.checks[n].status == status;
      assert n in s.Held();
    } else {
      assert forall n :: n in s.checks ==> n !in s.Held();
    }
  }

  /** What a registration hands over: a new check announces once that it is starting, on the event
      it then holds; a check restored into an incident announces once that it is restored, on the
      event it held all along; a check restored as passing stays silent. */
  lemma RegistrationHandsOver(s: System, step: Step)
    requires Reachable(s) && FreshStep(s, step) && step.Register? && step.name != "" && step.name !in s.checks
    ensures var s', name := Next(s, step), step.name;
            if name !in s.store then
              && name in s'.Held()
              && var id := s'.Held()[name];
              s'.world.log == s.world.log +
                [Emission(name, Initial, Initializing, None, id, Issued(s.world.log, id) + 1)]
            else
              && s'.Held() == s.Held()
              && if s.store[name].status == Passing then s'.world.log == s.world.log
                 else
                   && name in s.Held()
                   && var id, status, error := s.Held()[name], s.store[name].status, Parse(s.store[name].errorMsg);
                   s'.world.log == s.world.log +
                     [Emission(name, Restored, status, error, id, Issued(s.world.log, id) + 1)]
  {
    ReachableIsSound(s);
    if step.name in s.store {
      RestoredHandsOver(s, step);
    } else {
      NewHandsOver(s, step);
    }
  }

  lemma NewHandsOver(s: System, step: Step)
    requires SystemSound(s) && FreshStep(s, step)
    requires step.Register? && step.name != "" && step.name !in s.checks && step.name !in s.store
    ensures var s', name := Next(s, step), step.name;
            && name in s'.Held()
            && var id := s'.Held()[name];
            s'.world.log == s.world.log +
              [Emission(name, Initial, Initializing, None, id, Issued(s.world.log, id) + 1)]
  {
    RegisterWorld(s, step);
    EntryHandedOver(s, step.name, step.newID, Initial, Initializing, None);
  }

  lemma RestoredHandsOver(s: System, step: Step)
    requires SystemSound(s) && FreshStep(s, step)
    requires step.Register? && step.name != "" && step.name !in s.checks && step.name in s.store
    ensures var s', name := Next(s, step), step.name;
            && s'.Held() == s.Held()
            && if s.store[name].status == Passing then s'.world.log == s.world.log
               else
                 && name in s.Held()
                 && var id, status, error := s.Held()[name], s.store[name].status, Parse(s.store[name].errorMsg);
                 s'.world.log == s.world.log +
                   [Emission(name, Restored, status, error, id, Issued(s.world.log, id) + 1)]
  {
    var state := s.store[step.name];
    StepHolds(s, step);
    RegisterWorld(s, step);
    if state.status != Passing {
      EntryHandedOver(s, step.name, step.newID, Restored, state.status, Parse(state.errorMsg));
    }
  }

  lemma EntryHandedOver(s: System, name: string, newID: string, kind: Kind, status: Status, error: Option<string>)
    requires SystemSound(s) && newID != "" && newID !in s.used
    ensures var t := Attach(s.world.tracker, name, false, newID).0;
            var id := Attach(s.world.tracker, name, false, newID).1;
            var w := Emit(s.world.(tracker := t), true, name, kind, status, error, id);
            && name in w.tracker.eventIDs && w.tracker.eventIDs[name] == id
            && w.log == s.world.log + [Emission(name, kind, status, error, id, Issued(s.world.log, id) + 1)]
  {
    FoundEvent(s, name, newID);
  }

  function ConfiguredAction(c: Config, o: Outcome): Option<ActionConfig> {
    match o
    case Passing => c.success
    case Warning => c.warning
    case Critical => c.failure
    case Timeout => c.timeout
  }

  function SavedAction(state: Option<RunnerState>, o: Outcome): Option<ActionState> {
    if state.None? then None
    else
      match o
      case Passing => state.value.success
      case Warning => state.value.warning
      case Critical => state.value.failure
      case Timeout => state.value.timeout
  }

  /** A registered check has an action for exactly the outcomes it was configured with, each with its own
      settings; it goes on from its saved state, and an action without one, such as one that was not
      configured before, has never run and is not ready to. */
  lemma RegistrationConfigures(s: System, name: string, c: Config, newID: string, o: Outcome)
    requires name != "" && name !in s.checks
    ensures var s' := Next(s, Step.Register(name, c, newID));
            && name in s'.checks
            && var slot, action := s'.checks[name].runner.SlotFor(o), ConfiguredAction(c, o);
            var state := if name in s.store then s.store[name].runner else None;
            var saved := SavedAction(state, o);
            && (slot.Some? <==> action.Some?)
            && (slot.Some? ==>
                  && (slot.value.command, slot.value.cooldown) == (action.value.command, action.value.cooldown)
                  && slot.value.onlyAfterHealthy == action.value.onlyAfterHealthy
                  && slot.value.lastRun == (if saved.Some? then saved.value.lastRun else 0)
                  && slot.value.canRun == (saved.Some? && saved.value.canRun))
            && s'.checks[name].runner.status == if state.Some? then state.value.status else Initializing
  {
  }

  /** Stopping saves every registered check as it is, and leaves what was saved of others. */
  lemma RestartSaves(s: System, now: Time, name: string, o: Outcome)
    ensures var store := Next(s, Restart(now)).store;
            && (name in store <==> name in s.checks || name in s.store)
            && (name !in s.checks && name in s.store ==> store[name] == s.store[name])
            && (name in s.checks ==>
                  var u, c := s.checks[name], store[name];
                  && (c.successes, c.failures, c.status) == (u.successes, u.failures, u.status)
                  && c.errorMsg == (if u.error.Some? then u.error.value else "")
                  && (c.updatedAt, c.pendingEventID) == (now, "")
                  && c.runner.Some? && c.runner.value.status == u.runner.status
                  && var slot, saved := u.runner.SlotFor(o), SavedAction(c.runner, o);
                  && (saved.Some? <==> slot.Some?)
                  && (slot.Some? ==> saved.value == ActionState(slot.value.lastRun, slot.value.canRun)))
  {
    assert SavedChecks(s.checks, now).Keys == s.checks.Keys;
  }

  /** A failing check finds a real event, which it then holds, and whose counter is its count. */
  lemma FoundEvent(s: System, name: string, newID: string)
    requires SystemSound(s) && newID != "" && newID !in s.used
    ensures var (t, id) := Attach(s.world.tracker, name, false, newID);
            && id != "" && name in t.eventIDs && t.eventIDs[name] == id
            && t.sequences == s.world.tracker.sequences
            && Lookup(t.sequences, id, 0) == Issued(s.world.log, id)
            && (name in s.Held() ==> id == s.Held()[name])
  {
    AttachIsSimple(s.world.tracker, s.used, name, false, newID);
    CounterIsCount(s.world, s.used, name, false, newID);
    if name in s.Held() { assert s.Held()[name] in s.Held().Values; }
    var m := s.world.tracker.maintenanceName;
    if m in s.Held() { assert s.Held()[m] in s.Held().Values; }
  }

  /** The merged status does not depend on the order in which the checks are merged. */
  lemma WorstIsUnique(s: Status, s': Status, checks: map<string, Updater>)
    requires IsWorst(s, checks) && IsWorst(s', checks)
    ensures s == s'
  {
  }

  /** 503 exactly if some check failed hard, else 429 exactly if some check warns; and the merged
      status is critical as soon as one check is. */
  lemma HandlerAnswersByWorstCheck(s: System, status: Status)
    requires Reachable(s) && IsWorst(status, s.checks)
    ensures Code(status) == 503 <==> exists n :: n in s.checks && s.checks[n].status in {Critical, Timeout}
    ensures Code(status) == 429 <==>
              ((exists n :: n in s.checks && s.checks[n].status == Warning)
               && (forall n :: n in s.checks ==> s.checks[n].status in {Passing, Warning}))
    ensures status == Critical <==> exists n :: n in s.checks && s.checks[n].status == Critical
  {
    ReachableIsSound(s);
  }
}
