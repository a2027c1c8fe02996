/** The event tracker: which event each check is attached to, and the number last reserved
    on each event. `Tracker` and the functions on it are the specification; the class
    `EventTracker` is the in-place version. */
module Events {
  import opened Types

  datatype Tracker = Tracker(
    maintenanceName: string,
    eventIDs: map<string, string>,
    sequences: map<string, nat>,
    maintenanceEventID: string,
    maintenanceActive: bool,
    maintenanceChecks: set<string>)

  function NewTracker(maintenanceName: string): Tracker {
    Tracker(maintenanceName, map[], map[], "", false, {})
  }

  /** Clears the maintenance event once no check is attached to it. */
  function Cleanup(t: Tracker): Tracker {
    if t.maintenanceActive || t.maintenanceEventID in t.eventIDs.Values then t
    else t.(maintenanceEventID := "", maintenanceChecks := {})
  }

  function AttachMaintenance(t: Tracker, healthy: bool, newID: string): (Tracker, string) {
    if healthy then
      (t.(maintenanceActive := false, eventIDs := t.eventIDs - {t.maintenanceName}),
       Lookup(t.eventIDs, t.maintenanceName, ""))
    else
      var t1 := if t.maintenanceActive then t
                else t.(maintenanceEventID := newID, maintenanceActive := true, maintenanceChecks := {});
      (t1.(eventIDs := t1.eventIDs[t.maintenanceName := t1.maintenanceEventID]), t1.maintenanceEventID)
  }

  function AttachRegular(t: Tracker, name: string, healthy: bool, newID: string): (Tracker, string) {
    if healthy then
      var id := Lookup(t.eventIDs, name, "");
      var t1 := t.(eventIDs := t.eventIDs - {name}, maintenanceChecks := t.maintenanceChecks - {name});
      (if id == t.maintenanceEventID && !t.maintenanceActive then Cleanup(t1) else t1, id)
    else if name in t.eventIDs then
      (t, t.eventIDs[name])
    else
      var id := if t.maintenanceActive || (name in t.maintenanceChecks && t.maintenanceEventID != "")
                then t.maintenanceEventID else newID;
      (t.(eventIDs := t.eventIDs[name := id],
          maintenanceChecks := if t.maintenanceActive then t.maintenanceChecks + {name} else t.maintenanceChecks),
       id)
  }

  /** The event of a failing check, created if need be; for a healthy check the event that
      ends here ("" if there is none), which the check then no longer holds. */
  function Attach(t: Tracker, name: string, healthy: bool, newID: string): (Tracker, string) {
    if name == t.maintenanceName then AttachMaintenance(t, healthy, newID)
    else AttachRegular(t, name, healthy, newID)
  }

  function NextSequence(t: Tracker, id: string): (Tracker, nat) {
    if id == "" then (t, 0)
    else
      var n := Lookup(t.sequences, id, 0) + 1;
      (t.(sequences := t.sequences[id := n]), n)
  }

  function Released(t: Tracker, id: string): Tracker {
    if id == "" || id in t.eventIDs.Values then t
    else t.(sequences := t.sequences - {id})
  }

  /** The persisted form; a map is absent when the stored state never had it. */
  datatype TrackerState = TrackerState(
    eventIDs: Option<map<string, string>>,
    sequences: Option<map<string, nat>>,
    maintenanceEventID: string,
    maintenanceActive: bool,
    maintenanceChecks: Option<set<string>>)

  function SaveTracker(t: Tracker): TrackerState {
    TrackerState(Some(t.eventIDs), Some(t.sequences), t.maintenanceEventID, t.maintenanceActive,
                 Some(t.maintenanceChecks))
  }

  function RestoreTracker(t: Tracker, s: TrackerState): Tracker {
    t.(eventIDs := if s.eventIDs.Some? then s.eventIDs.value else t.eventIDs,
       sequences := if s.sequences.Some? then s.sequences.value else t.sequences,
       maintenanceEventID := s.maintenanceEventID,
       maintenanceActive := s.maintenanceActive,
       maintenanceChecks := if s.maintenanceChecks.Some? then s.maintenanceChecks.value else t.maintenanceChecks)
  }

  class EventTracker {
    const maintenanceCheckName: string
    var eventIDs: map<string, string>
    var sequences: map<string, nat>
    var maintenanceEventID: string
    var maintenanceActive: bool
    var maintenanceChecks: set<string>

    ghost function Value(): Tracker
      reads this
    {
      Tracker(maintenanceCheckName, eventIDs, sequences, maintenanceEventID, maintenanceActive, maintenanceChecks)
    }

    constructor (name: string)
      ensures Value() == NewTracker(name)
    {
      maintenanceCheckName := name;
      eventIDs, sequences, maintenanceChecks := map[], map[], {};
      maintenanceEventID, maintenanceActive := "", false;
    }

    method GetOrCreateEventID(checkName: string, status: Status, newID: string) returns (id: string)
      modifies this
      ensures (Value(), id) == Attach(old(Value()), checkName, status == Passing, newID)
    {
      if checkName == maintenanceCheckName {
        id := HandleMaintenanceCheck(status == Passing, newID);
      } else {
        id := HandleRegularCheck(checkName, status == Passing, newID);
      }
    }

    method HandleMaintenanceCheck(healthy: bool, newID: string) returns (id: string)
      modifies this
      ensures (Value(), id) == AttachMaintenance(old(Value()), healthy, newID)
    {
      if healthy {
        id := Lookup(eventIDs, maintenanceCheckName, "");
        maintenanceActive := false;
        eventIDs := eventIDs - {maintenanceCheckName};
        return;
      }
      if !maintenanceActive {
        maintenanceEventID := newID;
        maintenanceActive := true;
        maintenanceChecks := {};
      }
      eventIDs := eventIDs[maintenanceCheckName := maintenanceEventID];
      id := maintenanceEventID;
    }

    method HandleRegularCheck(checkName: string, healthy: bool, newID: string) returns (id: string)
      modifies this
      ensures (Value(), id) == AttachRegular(old(Value()), checkName, healthy, newID)
    {
      if healthy {
        id := Lookup(eventIDs, checkName, "");
        eventIDs := eventIDs - {checkName};
        maintenanceChecks := maintenanceChecks - {checkName};
        if id == maintenanceEventID && !maintenanceActive {
          MaybeCleanupMaintenanceEvent();
        }
        return;
      }
      if checkName in eventIDs {
        id := eventIDs[checkName];
        return;
      }
      if maintenanceActive {
        id := maintenanceEventID;
        maintenanceChecks := maintenanceChecks + {checkName};
      } else if checkName in maintenanceChecks && maintenanceEventID != "" {
        id := maintenanceEventID;
      } else {
        id := newID;
      }
      eventIDs := eventIDs[checkName := id];
    }

    method MaybeCleanupMaintenanceEvent()
      modifies this
      ensures Value() == Cleanup(old(Value()))
    {
      if maintenanceActive {
        return;
      }
      var inUse := Attached(maintenanceEventID);
      if inUse {
        return;
      }
      maintenanceEventID := "";
      maintenanceChecks := {};
    }

    /** The loop both cleanups share: is any check attached to this event? */
    method Attached(id: string) returns (found: bool)
      ensures found <==> id in eventIDs.Values
    {
      var rest := eventIDs.Keys;
      while rest != {}
        invariant rest <= eventIDs.Keys
        invariant forall c :: c in eventIDs && eventIDs[c] == id ==> c in rest
        decreases rest
      {
        var c :| c in rest;
        if eventIDs[c] == id {
          return true;
        }
        rest := rest - {c};
      }
      found := false;
    }

    method GetNextSequence(id: string) returns (n: nat)
      modifies this
      ensures (Value(), n) == NextSequence(old(Value()), id)
    {
      if id == "" {
        return 0;
      }
      sequences := sequences[id := Lookup(sequences, id, 0) + 1];
      n := sequences[id];
    }

    method ClearSequence(id: string)
      modifies this
      ensures Value() == Released(old(Value()), id)
    {
      if id == "" {
        return;
      }
      var inUse := Attached(id);
      if inUse {
        return;
      }
      sequences := sequences - {id};
    }

    method GetState() returns (s: TrackerState)
      ensures s == SaveTracker(Value())
    {
      s := TrackerState(Some(eventIDs), Some(sequences), maintenanceEventID, maintenanceActive,
                        Some(maintenanceChecks));
    }

    method RestoreState(s: Option<TrackerState>)
      modifies this
      ensures s.None? ==> Value() == old(Value())
      ensures s.Some? ==> Value() == RestoreTracker(old(Value()), s.value)
      ensures s.Some? && s.value.eventIDs.None? ==> eventIDs == old(eventIDs)
      ensures s.Some? && s.value.sequences.None? ==> sequences == old(sequences)
      ensures s.Some? && s.value.maintenanceChecks.None? ==> maintenanceChecks == old(maintenanceChecks)
    {
      if s.None? {
        return;
      }
      var state := s.value;
      if state.eventIDs.Some? {
        eventIDs := state.eventIDs.value;
      }
      if state.sequences.Some? {
        sequences := state.sequences.value;
      }
      maintenanceEventID := state.maintenanceEventID;
      maintenanceActive := state.maintenanceActive;
      if state.maintenanceChecks.Some? {
        maintenanceChecks := state.maintenanceChecks.value;
      }
    }
  }
}
