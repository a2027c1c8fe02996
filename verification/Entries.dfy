/** Everything a check hands over, told from the history of its results: without counters, verdicts
    or the state of its actions. */
module Entries {
  import opened Types
  import opened Actions
  import opened Updates
  import opened Containers
  import opened Invariants
  import opened Debounce
  import ActionRuns

  // ---------------------------------------------------------------- the history definition

  /** The result crosses its threshold with another status than the last one that crossed, if any. */
  ghost predicate Changes(th: Thresholds, ins: seq<Input>, i: nat)
    requires i < |ins|
  {
    && Reached(th, ins, i)
    && forall j: nat :: j < i && LastReachedBefore(th, ins, j, i) ==> ins[j].result.status != ins[i].result.status
  }

  ghost predicate LastReachedBefore(th: Thresholds, ins: seq<Input>, j: nat, i: nat)
    requires j < i <= |ins|
  {
    Reached(th, ins, j) && forall k :: j < k < i ==> !Reached(th, ins, k)
  }

  /** The results that cross their threshold, as a trace for the check's actions. */
  ghost function CrossingItems(th: Thresholds, ins: seq<Input>): seq<ActionRuns.Item> {
    if ins == [] then []
    else
      var i := |ins| - 1;
      CrossingItems(th, ins[..i]) +
      if Reached(th, ins, i) then [ActionRuns.Happened(ins[i].result.status, ins[i].clock)] else []
  }

  /** The result crosses its threshold, and its outcome's action runs on it in the trace of all that did. */
  ghost predicate Acts(th: Thresholds, runner: Runner, ins: seq<Input>, i: nat)
    requires i < |ins|
  {
    && Reached(th, ins, i)
    && var items := CrossingItems(th, ins[..i]) + [ActionRuns.Happened(ins[i].result.status, ins[i].clock)];
       ActionRuns.RunsAt(runner, items, |items| - 1, ins[i].result.status)
  }

  datatype Entry = Entry(kind: Kind, status: Status, error: Option<string>)

  function Told(announce: bool, act: bool, r: Result): seq<Entry> {
    (if announce then [Entry(Transition, r.status, r.error)] else []) +
    (if act then [Entry(ActionRun, r.status, r.error)] else [])
  }

  /** An announcement for every change that does not ask for silence, and an entry for every run. */
  ghost function Expected(th: Thresholds, runner: Runner, ins: seq<Input>): seq<Entry> {
    if ins == [] then []
    else
      var i := |ins| - 1;
      Expected(th, runner, ins[..i]) +
      Told(Changes(th, ins, i) && !ins[i].result.noNotification, Acts(th, runner, ins, i), ins[i].result)
  }

  // ---------------------------------------------------------------- one check

  lemma {:induction false} LastReachedExists(th: Thresholds, ins: seq<Input>, i: nat)
    requires i <= |ins|
    ensures (forall j :: 0 <= j < i ==> !Reached(th, ins, j)) ||
            exists j: nat :: j < i && LastReachedBefore(th, ins, j, i)
    decreases i
  {
    if i > 0 {
      if Reached(th, ins, i - 1) {
        assert LastReachedBefore(th, ins, i - 1, i);
      } else {
        var k: nat := i - 1;
        LastReachedExists(th, ins, k);
        if j: nat :| j < k && LastReachedBefore(th, ins, j, k) {
          assert LastReachedBefore(th, ins, j, i);
        }
      }
    }
  }

  /** What is recorded differs from a crossing result exactly if the last crossing was another. */
  lemma ChangesFromRecorded(th: Thresholds, runner: Runner, ins: seq<Input>, i: nat)
    requires i < |ins| && Reached(th, ins, i)
    ensures var was := After(NewUpdater(th, runner), ins[..i]);
            Changes(th, ins, i) <==> was.status != ins[i].result.status || !was.initialized
  {
    LastReachedExists(th, ins, i);
    ReachedInPrefix(th, ins, i);
    if j: nat :| j < i && LastReachedBefore(th, ins, j, i) {
      RecordedIsLastReached(th, runner, ins[..i], j);
    } else {
      NothingRecordedYet(th, runner, ins[..i]);
    }
  }

  /** The state of a check's actions is that of the trace of its crossings. */
  lemma {:induction false} ActionsFollowCrossings(th: Thresholds, runner: Runner, ins: seq<Input>)
    ensures After(NewUpdater(th, runner), ins).runner == ActionRuns.After(runner, CrossingItems(th, ins))
    decreases |ins|
  {
    if ins != [] {
      var i := |ins| - 1;
      ActionsFollowCrossings(th, runner, ins[..i]);
      CrossedIffReached(NewUpdater(th, runner), ins, i);
      if Reached(th, ins, i) {
        OneMoreItem(runner, CrossingItems(th, ins[..i]), ins[i].result.status, ins[i].clock);
      } else {
        assert CrossingItems(th, ins) == CrossingItems(th, ins[..i]);
      }
    }
  }

  lemma {:induction false} OneMoreItem(runner: Runner, items: seq<ActionRuns.Item>, o: Outcome, clk: Clock)
    ensures var all := items + [ActionRuns.Happened(o, clk)];
            && ActionRuns.After(runner, all) == Dispatch(ActionRuns.After(runner, items), o, clk).0
            && ActionRuns.RunsAt(runner, all, |items|, o) == Dispatch(ActionRuns.After(runner, items), o, clk).1
  {
    assert (items + [ActionRuns.Happened(o, clk)])[..|items|] == items;
  }

  lemma VerdictByHistory(th: Thresholds, runner: Runner, ins: seq<Input>, i: nat)
    requires i < |ins|
    ensures var v := VerdictAt(NewUpdater(th, runner), ins, i);
            && (v.announce <==> Changes(th, ins, i) && !ins[i].result.noNotification)
            && (v.act <==> Acts(th, runner, ins, i))
  {
    CrossedIffReached(NewUpdater(th, runner), ins, i);
    ActionsFollowCrossings(th, runner, ins[..i]);
    OneMoreItem(runner, CrossingItems(th, ins[..i]), ins[i].result.status, ins[i].clock);
    if Reached(th, ins, i) {
      ChangesFromRecorded(th, runner, ins, i);
    }
  }

  // ---------------------------------------------------------------- the system

  /** The entries of one check, without their event and number. */
  function EntriesOf(log: seq<Emission>, name: string): seq<Entry> {
    if log == [] then []
    else
      var e := log[|log| - 1];
      EntriesOf(log[..|log| - 1], name) + if e.check == name then [Entry(e.kind, e.status, e.error)] else []
  }

  lemma {:induction false} EntriesOfOneMore(log: seq<Emission>, e: Emission)
    ensures EntriesOf(log + [e], e.check) == EntriesOf(log, e.check) + [Entry(e.kind, e.status, e.error)]
  {
    assert (log + [e])[..|log|] == log;
  }

  lemma {:induction false} OthersEntries(log: seq<Emission>, log': seq<Emission>, name: string)
    requires log <= log' && forall i :: |log| <= i < |log'| ==> log'[i].check != name
    ensures EntriesOf(log', name) == EntriesOf(log, name)
    decreases |log'|
  {
    if |log'| == |log| {
      assert log' == log;
    } else {
      OthersEntries(log, log'[..|log'| - 1], name);
    }
  }

  /** A delivered result that asks for silence is not announced, whatever its status. */
  lemma SilentResultIsNotAnnounced(s: System, step: Step)
    requires step.Deliver? && step.result.noNotification
    ensures var log, log' := s.world.log, Next(s, step).world.log;
            log <= log' && forall i :: |log| <= i < |log'| ==> log'[i].kind == ActionRun
  {
    if step.name in s.checks {
      DeliverHandsOver(s, step);
    }
  }

  /** Entries added by a step are those of its own check. */
  lemma StepTellsOwnCheck(s: System, step: Step)
    ensures s.world.log <= Next(s, step).world.log
    ensures var log, log' := s.world.log, Next(s, step).world.log;
            !step.Restart? ==> forall i :: |log| <= i < |log'| ==> log'[i].check == step.name
  {
    StepMoves(s, step);
  }

  lemma DeliverTells(s: System, step: Step, v: Verdict)
    requires step.Deliver? && step.name in s.checks && v == Judge(s.checks[step.name], step.result, step.clock)
    ensures EntriesOf(Next(s, step).world.log, step.name) ==
            EntriesOf(s.world.log, step.name) + Told(v.announce, v.act, step.result)
  {
    DeliverHandsOver(s, step);
    StepTellsOwnCheck(s, step);
    AddedEntries(s.world.log, Next(s, step).world.log, step.name, step.result, v.announce, v.act);
  }

  lemma {:induction false} AddedEntries(log: seq<Emission>, log': seq<Emission>, name: string, r: Result,
                                        announce: bool, act: bool)
    requires var k := if announce then 1 else 0;
             && log <= log' && |log'| == |log| + k + (if act then 1 else 0)
             && (announce ==> log'[|log|].kind == Transition) && (act ==> log'[|log| + k].kind == ActionRun)
    requires forall i :: |log| <= i < |log'| ==>
               log'[i].check == name && log'[i].status == r.status && log'[i].error == r.error
    ensures EntriesOf(log', name) == EntriesOf(log, name) + Told(announce, act, r)
  {
    if announce && act {
      var e, e' := log'[|log|], log'[|log| + 1];
      assert log' == log + [e] + [e'];
      EntriesOfOneMore(log, e);
      EntriesOfOneMore(log + [e], e');
      assert Told(true, true, r) == [Entry(e.kind, e.status, e.error)] + [Entry(e'.kind, e'.status, e'.error)];
    } else if announce || act {
      var e := log'[|log|];
      assert log' == log + [e];
      EntriesOfOneMore(log, e);
    } else {
      assert log' == log;
    }
  }

  lemma {:induction false} OthersStepTells(s: System, step: Step, name: string)
    requires name in s.checks && !step.Restart? && !(step.Deliver? && step.name == name)
    ensures EntriesOf(Next(s, step).world.log, name) == EntriesOf(s.world.log, name)
  {
    if step.name != name {
      StepTellsOwnCheck(s, step);
      OthersEntries(s.world.log, Next(s, step).world.log, name);
    }
  }

  /** A delivered result adds the same entries to the log and to those expected. */
  lemma OwnStepTells(s: System, step: Step, th: Thresholds, runner: Runner, ins: seq<Input>) returns (added: seq<Entry>)
    requires step.Deliver? && step.name in s.checks && s.checks[step.name] == After(NewUpdater(th, runner), ins)
    ensures EntriesOf(Next(s, step).world.log, step.name) == EntriesOf(s.world.log, step.name) + added
    ensures Expected(th, runner, ins + [Input(step.result, step.clock)]) == Expected(th, runner, ins) + added
  {
    var v := Judge(s.checks[step.name], step.result, step.clock);
    added := Told(v.announce, v.act, step.result);
    DeliverTells(s, step, v);
    OneMoreExpected(th, runner, ins, Input(step.result, step.clock), v);
  }

  /** Whatever happens to other checks: from its registration on, a check hands over exactly one announcement
      for every delivered result that crosses its threshold with a new status and does not ask for silence,
      and one run for every crossing on which its action is due, each with the result's status and error,
      in the order of the results. */
  lemma {:induction false} EntriesAreThoseOfTheHistory(s: System, steps: seq<Step>, name: string, th: Thresholds,
                                                       runner: Runner)
    requires name in s.checks && s.checks[name] == NewUpdater(th, runner)
    requires forall i :: 0 <= i < |steps| ==> !steps[i].Restart?
    ensures EntriesOf(Run(s, steps).world.log, name) ==
            EntriesOf(s.world.log, name) + Expected(th, runner, Delivered(steps, name))
  {
    RunBackIsRun(s, steps);
    EntriesFromBehind(s, steps, name, th, runner);
  }

  lemma {:induction false} EntriesFromBehind(s: System, steps: seq<Step>, name: string, th: Thresholds, runner: Runner)
    requires name in s.checks && s.checks[name] == NewUpdater(th, runner)
    requires forall i :: 0 <= i < |steps| ==> !steps[i].Restart?
    ensures EntriesOf(RunBack(s, steps).world.log, name) ==
            EntriesOf(s.world.log, name) + Expected(th, runner, Delivered(steps, name))
    decreases |steps|
  {
    if steps == [] {
      assert Expected(th, runner, Delivered(steps, name)) == [];
    } else {
      var front, last := steps[..|steps| - 1], steps[|steps| - 1];
      EntriesFromBehind(s, front, name, th, runner);
      ResultsFromBehind(s, front, name);
      OneMoreStepTells(RunBack(s, front), last, name, th, runner, Delivered(front, name), EntriesOf(s.world.log, name));
    }
  }

  /** What the last step delivers to the check. */
  function LastInput(step: Step, name: string): seq<Input> {
    if step.Deliver? && step.name == name then [Input(step.result, step.clock)] else []
  }

  lemma {:induction false} OneMoreStepTells(s: System, step: Step, name: string, th: Thresholds, runner: Runner,
                                            ins: seq<Input>, before: seq<Entry>)
    requires name in s.checks && !step.Restart? && s.checks[name] == After(NewUpdater(th, runner), ins)
    requires EntriesOf(s.world.log, name) == before + Expected(th, runner, ins)
    ensures EntriesOf(Next(s, step).world.log, name) == before + Expected(th, runner, ins + LastInput(step, name))
  {
    if step.Deliver? && step.name == name {
      var added := OwnStepTells(s, step, th, runner, ins);
      Associative(before, Expected(th, runner, ins), added);
    } else {
      OthersStepTells(s, step, name);
      NothingAdded(ins);
    }
  }

  lemma Associative(a: seq<Entry>, b: seq<Entry>, c: seq<Entry>)
    ensures (a + b) + c == a + (b + c)
  {
  }

  lemma NothingAdded(ins: seq<Input>)
    ensures ins + [] == ins
  {
  }

  lemma {:induction false} OneMoreExpected(th: Thresholds, runner: Runner, ins: seq<Input>, last: Input, v: Verdict)
    requires v == Judge(After(NewUpdater(th, runner), ins), last.result, last.clock)
    ensures Expected(th, runner, ins + [last]) == Expected(th, runner, ins) + Told(v.announce, v.act, last.result)
  {
    assert (ins + [last])[..|ins|] == ins;
    VerdictByHistory(th, runner, ins + [last], |ins|);
  }
}
