/** The tracker hands out the same IDs as a much simpler one that keeps only the map from
    check to event: a failing check keeps its event, or else joins the maintenance check's,
    or else starts a new one. */
module Ledger {
  import opened Types
  import opened Events

  function SimpleAttach(held: map<string, string>, maintenance: string, name: string, healthy: bool, newID: string)
    : (map<string, string>, string)
  {
    if healthy then (held - {name}, Lookup(held, name, ""))
    else if name in held then (held, held[name])
    else
      var id := if maintenance in held then held[maintenance] else newID;
      (held[name := id], id)
  }

  /** Checks other than the maintenance check that hold the current maintenance event. */
  ghost function Sharers(t: Tracker): set<string> {
    set c | c in t.eventIDs && c != t.maintenanceName && t.eventIDs[c] == t.maintenanceEventID
  }

  /** Active maintenance always holds its own event, and `maintenanceChecks` says nothing
      that the event map does not. */
  ghost predicate Sound(t: Tracker, used: set<string>) {
    && t.maintenanceChecks == Sharers(t)
    && (t.maintenanceActive <==> t.maintenanceName in t.eventIDs)
    && (t.maintenanceActive ==> t.eventIDs[t.maintenanceName] == t.maintenanceEventID)
    && t.eventIDs.Values <= used && "" !in used
    && (t.maintenanceEventID != "" ==> t.maintenanceEventID in used)
  }

  /** One call: same answer and same event map as the simple tracker, and soundness is kept. */
  lemma AttachIsSimple(t: Tracker, used: set<string>, name: string, healthy: bool, newID: string)
    requires Sound(t, used) && newID != "" && newID !in used
    ensures var (t', id) := Attach(t, name, healthy, newID);
            && (t'.eventIDs, id) == SimpleAttach(t.eventIDs, t.maintenanceName, name, healthy, newID)
            && t'.maintenanceName == t.maintenanceName && t'.sequences == t.sequences
            && Sound(t', used + t'.eventIDs.Values)
  {
    var (t', id) := Attach(t, name, healthy, newID);
    assert forall c :: c in t.eventIDs ==> t.eventIDs[c] in t.eventIDs.Values;
    assert forall c :: c in t'.eventIDs ==> t'.eventIDs[c] in t'.eventIDs.Values;
    if healthy {
      if name in t.eventIDs {
        assert t.eventIDs[name] in used;
      }
      assert t'.eventIDs == t.eventIDs - {name};
    }
    if !healthy && name in t.eventIDs {
      assert t'.eventIDs == t.eventIDs;
    }
    assert t'.maintenanceChecks == Sharers(t');
  }

  /** Any traffic at the granularity of single tracker calls, from however many checks. */
  datatype Call = Ask(name: string, healthy: bool, newID: string) | Number(id: string) | Clear(id: string)

  function Called(t: Tracker, call: Call): Tracker {
    match call
    case Ask(name, healthy, newID) => Attach(t, name, healthy, newID).0
    case Number(id) => NextSequence(t, id).0
    case Clear(id) => Released(t, id)
  }

  function Answers(t: Tracker, calls: seq<Call>): seq<string>
    decreases |calls|
  {
    if calls == [] then []
    else
      (if calls[0].Ask? then [Attach(t, calls[0].name, calls[0].healthy, calls[0].newID).1] else []) +
      Answers(Called(t, calls[0]), calls[1..])
  }

  function SimpleAnswers(held: map<string, string>, maintenance: string, calls: seq<Call>): seq<string>
    decreases |calls|
  {
    if calls == [] then []
    else if calls[0].Ask? then
      var (held', id) := SimpleAttach(held, maintenance, calls[0].name, calls[0].healthy, calls[0].newID);
      [id] + SimpleAnswers(held', maintenance, calls[1..])
    else SimpleAnswers(held, maintenance, calls[1..])
  }

  /** The generator never yields "" and never repeats itself. */
  ghost predicate DistinctIDs(calls: seq<Call>) {
    && (forall i :: 0 <= i < |calls| && calls[i].Ask? ==> calls[i].newID != "")
    && (forall i, j :: 0 <= i < j < |calls| && calls[i].Ask? && calls[j].Ask? ==> calls[i].newID != calls[j].newID)
  }

  lemma {:induction false} TrackerAnswersLikeSimple(maintenance: string, calls: seq<Call>)
    requires DistinctIDs(calls)
    ensures Answers(NewTracker(maintenance), calls) == SimpleAnswers(map[], maintenance, calls)
  {
    AnswersFrom(NewTracker(maintenance), {}, calls);
  }

  lemma {:induction false} AnswersFrom(t: Tracker, used: set<string>, calls: seq<Call>)
    requires Sound(t, used) && DistinctIDs(calls)
    requires forall i :: 0 <= i < |calls| && calls[i].Ask? ==> calls[i].newID !in used
    ensures Answers(t, calls) == SimpleAnswers(t.eventIDs, t.maintenanceName, calls)
    decreases |calls|
  {
    if calls != [] {
      var rest := calls[1..];
      match calls[0]
      case Ask(name, healthy, newID) =>
        AttachIsSimple(t, used, name, healthy, newID);
        var (t', id) := Attach(t, name, healthy, newID);
        assert t'.eventIDs.Values <= used + {newID};
        assert Sound(t', used + {newID});
        AnswersFrom(t', used + {newID}, rest);
      case Number(id) =>
        AnswersFrom(NextSequence(t, id).0, used, rest);
      case Clear(id) =>
        AnswersFrom(Released(t, id), used, rest);
    }
  }

  // ---------------------------------------------------------------- numbers

  /** The numbers given on an event, in order. */
  function NumbersGiven(t: Tracker, calls: seq<Call>, id: string): seq<nat>
    decreases |calls|
  {
    if calls == [] then []
    else
      (if calls[0] == Number(id) then [NextSequence(t, id).1] else []) +
      NumbersGiven(Called(t, calls[0]), calls[1..], id)
  }

  /** The call drops the counter of an event that has numbers: no check holds it any more. */
  predicate Drops(t: Tracker, call: Call, id: string) {
    call == Clear(id) && id !in t.eventIDs.Values && Lookup(t.sequences, id, 0) > 0
  }

  /** Some number is asked for after the event's counter was dropped. */
  predicate AsksAfterDrop(t: Tracker, calls: seq<Call>, id: string)
    decreases |calls|
  {
    calls != [] &&
    ((Drops(t, calls[0], id) && Number(id) in calls[1..]) || AsksAfterDrop(Called(t, calls[0]), calls[1..], id))
  }

  ghost predicate CountsOn(numbers: seq<nat>, k: nat) {
    forall i :: 0 <= i < |numbers| ==> numbers[i] == k + 1 + i
  }

  /** No number repeats another one, or one of the k given before. */
  ghost predicate AllNew(numbers: seq<nat>, k: nat) {
    && (forall i :: 0 <= i < |numbers| ==> numbers[i] > k)
    && (forall i, j :: 0 <= i < j < |numbers| ==> numbers[i] != numbers[j])
  }

  /** For every tracker, however its calls interleave: the numbers of an event go on counting, and
      none is given twice, exactly if no number is asked for after a `Clear` that dropped its counter. */
  lemma {:induction false} NumbersRepeatExactlyAfterDrops(t: Tracker, calls: seq<Call>, id: string)
    requires id != ""
    ensures var k := Lookup(t.sequences, id, 0);
            && (CountsOn(NumbersGiven(t, calls, id), k) <==> !AsksAfterDrop(t, calls, id))
            && (AllNew(NumbersGiven(t, calls, id), k) <==> !AsksAfterDrop(t, calls, id))
  {
    if AsksAfterDrop(t, calls, id) {
      DropsRepeat(t, calls, id);
    } else {
      NoDropsCountOn(t, calls, id);
    }
  }

  lemma CalledCounts(t: Tracker, call: Call, id: string)
    requires id != ""
    ensures Lookup(Called(t, call).sequences, id, 0) ==
            if call == Number(id) then Lookup(t.sequences, id, 0) + 1
            else if Drops(t, call, id) then 0 else Lookup(t.sequences, id, 0)
  {
  }

  lemma {:induction false} NoneAskedNoneGiven(t: Tracker, calls: seq<Call>, id: string)
    requires Number(id) !in calls
    ensures NumbersGiven(t, calls, id) == [] && !AsksAfterDrop(t, calls, id)
    decreases |calls|
  {
    if calls != [] {
      NoneAskedNoneGiven(Called(t, calls[0]), calls[1..], id);
    }
  }

  /** Without a counter, the first number to come is 1. */
  lemma {:induction false} FirstNumberIsOne(t: Tracker, calls: seq<Call>, id: string)
    requires id != "" && Lookup(t.sequences, id, 0) == 0 && Number(id) in calls
    ensures var numbers := NumbersGiven(t, calls, id); numbers != [] && numbers[0] == 1
    decreases |calls|
  {
    if calls[0] != Number(id) {
      CalledCounts(t, calls[0], id);
      FirstNumberIsOne(Called(t, calls[0]), calls[1..], id);
    }
  }

  lemma {:induction false} NoDropsCountOn(t: Tracker, calls: seq<Call>, id: string)
    requires id != "" && !AsksAfterDrop(t, calls, id)
    ensures CountsOn(NumbersGiven(t, calls, id), Lookup(t.sequences, id, 0))
    decreases |calls|
  {
    if calls != [] {
      CalledCounts(t, calls[0], id);
      if Drops(t, calls[0], id) {
        NoneAskedNoneGiven(Called(t, calls[0]), calls[1..], id);
      } else {
        NoDropsCountOn(Called(t, calls[0]), calls[1..], id);
      }
    }
  }

  lemma {:induction false} DropsRepeat(t: Tracker, calls: seq<Call>, id: string)
    requires id != "" && AsksAfterDrop(t, calls, id)
    ensures !AllNew(NumbersGiven(t, calls, id), Lookup(t.sequences, id, 0))
    decreases |calls|
  {
    var numbers, k, t' := NumbersGiven(t, calls, id), Lookup(t.sequences, id, 0), Called(t, calls[0]);
    var rest := NumbersGiven(t', calls[1..], id);
    CalledCounts(t, calls[0], id);
    if Drops(t, calls[0], id) {
      if Number(id) in calls[1..] {
        FirstNumberIsOne(t', calls[1..], id);
        assert numbers[0] == 1 <= k;
      } else {
        NoneAskedNoneGiven(t', calls[1..], id);
      }
    } else {
      DropsRepeat(t', calls[1..], id);
      if calls[0] == Number(id) {
        assert numbers == [k + 1] + rest;
        OneMoreRepeats(rest, k);
      } else {
        assert numbers == rest;
      }
    }
  }

  lemma OneMoreRepeats(rest: seq<nat>, k: nat)
    requires !AllNew(rest, k + 1)
    ensures !AllNew([k + 1] + rest, k)
  {
    var numbers := [k + 1] + rest;
    if AllNew(numbers, k) {
      forall i | 0 <= i < |rest|
        ensures rest[i] > k + 1
      {
        assert numbers[i + 1] == rest[i] && numbers[0] == k + 1;
      }
      assert forall i, j :: 0 <= i < j < |rest| ==> numbers[i + 1] == rest[i] && numbers[j + 1] == rest[j];
    }
  }

  /** One call, by what it does to the holders and the counter. */
  lemma OneCall(t: Tracker, call: Call, rest: seq<Call>, id: string) returns (t': Tracker)
    requires id != ""
    ensures t' == Called(t, call)
    ensures NumbersGiven(t, [call] + rest, id) ==
            (if call == Number(id) then [Lookup(t.sequences, id, 0) + 1] else []) + NumbersGiven(t', rest, id)
  {
    t' := Called(t, call);
    assert ([call] + rest)[1..] == rest;
  }

  /** Two checks that are the last to hold an event recover at once: both learn the event, the first
      resolution takes its number and drops the counter, and the second resolution gets number 1. */
  lemma {:induction false} InterleavedRecoveriesRepeatANumber(t: Tracker, a: string, b: string, id: string)
    requires id != "" && a != b && forall c :: c in t.eventIDs && t.eventIDs[c] == id <==> c in {a, b}
    ensures Attach(t, a, true, "").1 == id && Attach(Attach(t, a, true, "").0, b, true, "").1 == id
    ensures NumbersGiven(t, [Ask(a, true, ""), Ask(b, true, ""), Number(id), Clear(id), Number(id)], id) ==
            [Lookup(t.sequences, id, 0) + 1, 1]
  {
    var t1, t2 := BothRecover(t, a, b, id);
    LastNumbers(t2, id);
    TwoAsks(t, Ask(a, true, ""), Ask(b, true, ""), [Number(id), Clear(id), Number(id)], id);
    assert [Ask(a, true, ""), Ask(b, true, ""), Number(id), Clear(id), Number(id)] ==
           [Ask(a, true, ""), Ask(b, true, "")] + [Number(id), Clear(id), Number(id)];
  }

  lemma {:induction false} TwoAsks(t: Tracker, first: Call, second: Call, rest: seq<Call>, id: string)
    requires id != "" && first.Ask? && second.Ask?
    ensures NumbersGiven(t, [first, second] + rest, id) == NumbersGiven(Called(Called(t, first), second), rest, id)
  {
    var t1 := OneCall(t, first, [second] + rest, id);
    var t2 := OneCall(t1, second, rest, id);
    assert [first, second] + rest == [first] + ([second] + rest);
  }

  lemma BothRecover(t: Tracker, a: string, b: string, id: string) returns (t1: Tracker, t2: Tracker)
    requires a != b && forall c :: c in t.eventIDs && t.eventIDs[c] == id <==> c in {a, b}
    ensures Attach(t, a, true, "") == (t1, id) && Attach(t1, b, true, "") == (t2, id)
    ensures id !in t2.eventIDs.Values && t2.sequences == t.sequences
  {
    t1 := Attach(t, a, true, "").0;
    t2 := Attach(t1, b, true, "").0;
    LastHolder(t, a, id, {b});
    LastHolder(t1, b, id, {});
  }

  lemma LastHolder(t: Tracker, a: string, id: string, others: set<string>)
    requires a !in others && forall c :: c in t.eventIDs && t.eventIDs[c] == id <==> c == a || c in others
    ensures var (t', answer) := Attach(t, a, true, "");
            && answer == id && t'.sequences == t.sequences
            && (forall c :: c in t'.eventIDs && t'.eventIDs[c] == id <==> c in others)
  {
    assert Attach(t, a, true, "").0.eventIDs == t.eventIDs - {a};
  }

  lemma {:induction false} LastNumbers(t: Tracker, id: string)
    requires id != "" && id !in t.eventIDs.Values
    ensures NumbersGiven(t, [Number(id), Clear(id), Number(id)], id) == [Lookup(t.sequences, id, 0) + 1, 1]
  {
    var t1 := OneCall(t, Number(id), [Clear(id)] + [Number(id)], id);
    var t2 := OneCall(t1, Clear(id), [Number(id)], id);
    assert Lookup(t2.sequences, id, 0) == 0;
    var t3 := OneCall(t2, Number(id), [], id);
    assert [Number(id), Clear(id), Number(id)] == [Number(id)] + ([Clear(id)] + [Number(id)]);
    assert [Number(id)] + [] == [Number(id)];
  }

  /** Maintenance starts, two checks fail in it, maintenance ends: now they are the last holders, and
      number 1 was given when maintenance started. */
  lemma SharedEventFromMaintenance()
    ensures var t1 := Called(NewTracker("maintenance"), Ask("maintenance", false, "e"));
            var t := Called(Called(Called(Called(t1, Number("e")), Ask("a", false, "x")), Ask("b", false, "y")),
                            Ask("maintenance", true, "z"));
            && NextSequence(t1, "e").1 == 1
            && var calls := [Ask("a", true, ""), Ask("b", true, ""), Number("e"), Clear("e"), Number("e")];
            NumbersGiven(t, calls, "e") == [2, 1]
  {
    var t1 := Called(NewTracker("maintenance"), Ask("maintenance", false, "e"));
    var t2 := Called(t1, Number("e"));
    assert t2 == Tracker("maintenance", map["maintenance" := "e"], map["e" := 1], "e", true, {});
    var t := Called(Called(Called(t2, Ask("a", false, "x")), Ask("b", false, "y")), Ask("maintenance", true, "z"));
    assert t.eventIDs == map["a" := "e", "b" := "e"] && t.sequences == map["e" := 1];
    InterleavedRecoveriesRepeatANumber(t, "a", "b", "e");
  }
}
