/** One check's statuses over a whole history of results, told without counters. */
module Debounce {
  import opened Types
  import Actions
  import opened Updates
  import opened Containers

  datatype Input = Input(result: Result, clock: Clock)

  function After(u: Updater, ins: seq<Input>): Updater {
    if ins == [] then u
    else
      var last := ins[|ins| - 1];
      Judge(After(u, ins[..|ins| - 1]), last.result, last.clock).next
  }

  /** The verdict on the i-th input. */
  function VerdictAt(u: Updater, ins: seq<Input>, i: nat): Verdict
    requires i < |ins|
  {
    Judge(After(u, ins[..i]), ins[i].result, ins[i].clock)
  }

  // ---------------------------------------------------------------- which results a check sees

  /** The results a run delivers to one check. */
  function Delivered(steps: seq<Step>, name: string): seq<Input> {
    if steps == [] then []
    else
      var last := steps[|steps| - 1];
      Delivered(steps[..|steps| - 1], name) +
      if last.Deliver? && last.name == name then [Input(last.result, last.clock)] else []
  }

  /** A check depends on nothing but the results delivered to it. */
  lemma {:induction false} CheckSeesOnlyItsResults(s: System, steps: seq<Step>, name: string)
    requires name in s.checks && forall i :: 0 <= i < |steps| ==> !steps[i].Restart?
    ensures var s' := Run(s, steps);
            name in s'.checks && s'.checks[name] == After(s.checks[name], Delivered(steps, name))
  {
    RunBackIsRun(s, steps);
    ResultsFromBehind(s, steps, name);
  }

  lemma {:induction false} ResultsFromBehind(s: System, steps: seq<Step>, name: string)
    requires name in s.checks && forall i :: 0 <= i < |steps| ==> !steps[i].Restart?
    ensures var s' := RunBack(s, steps);
            name in s'.checks && s'.checks[name] == After(s.checks[name], Delivered(steps, name))
    decreases |steps|
  {
    if steps != [] {
      var front, last := steps[..|steps| - 1], steps[|steps| - 1];
      ResultsFromBehind(s, front, name);
      var ins := Delivered(front, name);
      if last.Deliver? && last.name == name {
        assert (ins + [Input(last.result, last.clock)])[..|ins|] == ins;
      } else {
        assert Delivered(steps, name) == ins;
      }
    }
  }

  /** `Run`, unrolled from its last step. */
  function RunBack(s: System, steps: seq<Step>): System {
    if steps == [] then s else Next(RunBack(s, steps[..|steps| - 1]), steps[|steps| - 1])
  }

  lemma {:induction false} RunBackIsRun(s: System, steps: seq<Step>)
    ensures RunBack(s, steps) == Run(s, steps)
    decreases |steps|
  {
    if steps != [] {
      RunBackFirst(s, steps);
      RunBackIsRun(Next(s, steps[0]), steps[1..]);
    }
  }

  lemma {:induction false} RunBackFirst(s: System, steps: seq<Step>)
    requires steps != []
    ensures RunBack(s, steps) == RunBack(Next(s, steps[0]), steps[1..])
    decreases |steps|
  {
    if |steps| > 1 {
      RunBackFirst(s, steps[..|steps| - 1]);
      assert steps[1..][..|steps| - 2] == steps[..|steps| - 1][1..];
    } else {
      assert steps[..0] == [] && steps[1..] == [];
      assert RunBack(s, []) == s;
    }
  }

  // ---------------------------------------------------------------- the history definition

  function Side(i: Input): bool { i.result.status == Passing }

  /** The last n results up to and including the i-th are all passing or all failing. */
  ghost predicate RunOf(ins: seq<Input>, i: nat, n: nat)
    requires i < |ins|
  {
    n <= i + 1 && forall j :: i + 1 - n <= j <= i ==> Side(ins[j]) == Side(ins[i])
  }

  function Needed(th: Thresholds, o: Outcome): nat {
    match o
    case Passing => th.passing
    case Warning => th.warning
    case Critical => th.critical
    case Timeout => th.critical
  }

  /** The i-th result ends a long enough run for its own status. */
  ghost predicate Reached(th: Thresholds, ins: seq<Input>, i: nat)
    requires i < |ins|
  {
    RunOf(ins, i, Needed(th, ins[i].result.status))
  }

  /** The counters are the length of the longest run ending now. */
  ghost predicate CountersAreRuns(u: Updater, ins: seq<Input>) {
    if ins == [] then u.successes == 0 && u.failures == 0
    else
      var i := |ins| - 1;
      var n := if Side(ins[i]) then u.successes else u.failures;
      && (if Side(ins[i]) then u.failures == 0 else u.successes == 0)
      && RunOf(ins, i, n) && !RunOf(ins, i, n + 1)
  }

  lemma {:induction false} CountersCountRuns(u: Updater, ins: seq<Input>)
    requires u.successes == 0 && u.failures == 0
    ensures CountersAreRuns(After(u, ins), ins) && After(u, ins).thresholds == u.thresholds
    decreases |ins|
  {
    if ins != [] {
      var front, i := ins[..|ins| - 1], |ins| - 1;
      CountersCountRuns(u, front);
      var before := After(u, front);
      var n := if Side(ins[i]) then before.successes + 1 else before.failures + 1;
      assert RunOf(ins, i, n);
      RunShrinks(ins, n);
    }
  }

  /** Dropping the last result shortens the run that ends there by one. */
  lemma RunShrinks(ins: seq<Input>, n: nat)
    requires ins != [] && n > 0
    ensures RunOf(ins, |ins| - 1, n + 1) ==>
              |ins| > 1 && Side(ins[|ins| - 2]) == Side(ins[|ins| - 1]) && RunOf(ins[..|ins| - 1], |ins| - 2, n)
  {
  }

  /** Crossing a threshold, told by counters, is ending a long enough run. */
  lemma CrossedIffReached(u: Updater, ins: seq<Input>, i: nat)
    requires u.successes == 0 && u.failures == 0 && i < |ins|
    ensures VerdictAt(u, ins, i).crossed <==> Reached(u.thresholds, ins, i)
  {
    var upto := ins[..i + 1];
    assert upto[..i] == ins[..i];
    CountersCountRuns(u, upto);
    CountersCountRuns(u, ins[..i]);
    var c := Count(After(u, ins[..i]), ins[i].result.status);
    var v := Judge(After(u, ins[..i]), ins[i].result, ins[i].clock);
    assert After(u, upto) == v.next && v.next.successes == c.successes && v.next.failures == c.failures;
    var n := if Side(ins[i]) then c.successes else c.failures;
    assert RunOf(upto, i, n) && !RunOf(upto, i, n + 1);
    var need := Needed(u.thresholds, ins[i].result.status);
    assert RunOf(ins, i, need) <==> RunOf(upto, i, need) by {
      assert forall j :: 0 <= j <= i ==> upto[j] == ins[j];
    }
    if need > n && RunOf(upto, i, need) {
      assert RunOf(upto, i, n + 1);
    }
  }

  lemma ReachedInPrefix(th: Thresholds, ins: seq<Input>, k: nat)
    requires k <= |ins|
    ensures forall i :: 0 <= i < k ==> (Reached(th, ins[..k], i) <==> Reached(th, ins, i))
  {
  }

  lemma {:induction false} AfterOneMore(u: Updater, ins: seq<Input>)
    requires ins != []
    ensures var before, v, r := After(u, ins[..|ins| - 1]), After(u, ins), ins[|ins| - 1].result;
            if VerdictAt(u, ins, |ins| - 1).crossed
            then v.status == r.status && v.error == r.error && v.initialized
            else v.status == before.status && v.error == before.error && v.initialized == before.initialized
  {
  }

  /** The recorded status and error are those of the last result that ended a long enough run
      for its own status ... */
  lemma {:induction false} RecordedIsLastReached(th: Thresholds, runner: Actions.Runner, ins: seq<Input>, i: nat)
    requires i < |ins| && Reached(th, ins, i) && forall j :: i < j < |ins| ==> !Reached(th, ins, j)
    ensures var v := After(NewUpdater(th, runner), ins);
            v.status == ins[i].result.status && v.error == ins[i].result.error && v.initialized
    decreases |ins|
  {
    var u, last := NewUpdater(th, runner), |ins| - 1;
    CrossedIffReached(u, ins, last);
    AfterOneMore(u, ins);
    if i < last {
      ReachedInPrefix(th, ins, last);
      RecordedIsLastReached(th, runner, ins[..last], i);
    }
  }

  /** ... and the synthetic critical while there is none. */
  lemma {:induction false} NothingRecordedYet(th: Thresholds, runner: Actions.Runner, ins: seq<Input>)
    requires forall i :: 0 <= i < |ins| ==> !Reached(th, ins, i)
    ensures var v := After(NewUpdater(th, runner), ins);
            v.status == Critical && v.error == Some(INITIALIZING) && !v.initialized
    decreases |ins|
  {
    if ins != [] {
      var u, last := NewUpdater(th, runner), |ins| - 1;
      CrossedIffReached(u, ins, last);
      AfterOneMore(u, ins);
      ReachedInPrefix(th, ins, last);
      NothingRecordedYet(th, runner, ins[..last]);
    }
  }

  /** The run a status needs, as the check was registered: the configured number, or the default for 0. */
  function Wanted(c: Config, o: Outcome): nat {
    match o
    case Passing => if c.successesBeforePassing == 0 then 3 else c.successesBeforePassing
    case Warning => if c.failuresBeforeWarning == 0 then 1 else c.failuresBeforeWarning
    case Critical => if c.failuresBeforeCritical == 0 then 1 else c.failuresBeforeCritical
    case Timeout => if c.failuresBeforeCritical == 0 then 1 else c.failuresBeforeCritical
  }

  /** Every threshold is the configured one: a result crosses exactly if it ends a run that long. */
  lemma CrossesAsConfigured(c: Config, ins: seq<Input>, i: nat)
    requires i < |ins|
    ensures Reached(UpdaterFrom(c).thresholds, ins, i) <==> RunOf(ins, i, Wanted(c, ins[i].result.status))
    ensures VerdictAt(UpdaterFrom(c), ins, i).crossed <==> RunOf(ins, i, Wanted(c, ins[i].result.status))
  {
    CrossedIffReached(UpdaterFrom(c), ins, i);
    assert Needed(UpdaterFrom(c).thresholds, ins[i].result.status) == Wanted(c, ins[i].result.status);
  }

  /** The results are those of finished runs of one check. */
  ghost predicate ResultsOf(ins: seq<Input>, endings: seq<Ending>, skipOnErr: bool) {
    |endings| == |ins| && forall i :: 0 <= i < |ins| ==> ins[i].result == Reported(endings[i], skipOnErr)
  }

  /** The run timed out, or came back without an error, or with one that is only a warning, or with another. */
  predicate Shows(e: Ending, skipOnErr: bool, status: Status) {
    match status
    case Timeout => e.TimedOut?
    case Passing => e.Responded? && e.response.error.None?
    case Warning => e.Responded? && e.response.error.Some? && (e.response.isWarning || skipOnErr)
    case Critical => e.Responded? && e.response.error.Some? && !e.response.isWarning && !skipOnErr
    case Initializing => false
  }

  /** What is recorded after finished runs is what the last one that crossed shows, with its error text;
      a run is silent exactly if its response asks for it, so never by its timeout. */
  lemma {:induction false} RecordedIsWhatTheRunShows(th: Thresholds, runner: Actions.Runner, ins: seq<Input>,
                                                     endings: seq<Ending>, skipOnErr: bool, i: nat)
    requires ResultsOf(ins, endings, skipOnErr)
    requires i < |ins| && Reached(th, ins, i) && forall j :: i < j < |ins| ==> !Reached(th, ins, j)
    ensures var v, e := After(NewUpdater(th, runner), ins), endings[i];
            && (forall status :: v.status == status <==> Shows(e, skipOnErr, status))
            && v.error == (if e.TimedOut? then Some("timeout") else e.response.error)
            && (ins[i].result.noNotification <==> e.Responded? && e.response.noNotification)
  {
    RecordedIsLastReached(th, runner, ins, i);
  }

  /** A check whose errors are skipped is never recorded as critical after its first crossing; a
      timeout is not softened, so it is recorded as such. */
  lemma {:induction false} SkippedErrorsAreNeverCritical(th: Thresholds, runner: Actions.Runner, ins: seq<Input>,
                                                         endings: seq<Ending>)
    requires |endings| == |ins| && forall i :: 0 <= i < |ins| ==> ins[i].result == Reported(endings[i], true)
    ensures var v := After(NewUpdater(th, runner), ins);
            && (v.initialized ==> v.status != Critical)
            && (v.initialized && v.status == Timeout ==> TimedOut in endings)
            && (v.initialized && v.status == Passing ==>
                  exists i :: 0 <= i < |ins| && endings[i].Responded? && endings[i].response.error == None)
    decreases |ins|
  {
    if ins != [] {
      var i := |ins| - 1;
      SkippedErrorsAreNeverCritical(th, runner, ins[..i], endings[..i]);
      AfterOneMore(NewUpdater(th, runner), ins);
      assert endings[i] in endings;
    }
  }

  /** A check registered without thresholds records any failure at once, and a recovery only
      with the third pass in a row. */
  lemma DefaultThresholds(c: Config, ins: seq<Input>, i: nat)
    requires c.successesBeforePassing == c.failuresBeforeWarning == c.failuresBeforeCritical == 0 && i < |ins|
    ensures VerdictAt(UpdaterFrom(c), ins, i).crossed <==>
              !Side(ins[i]) || (i >= 2 && Side(ins[i]) && Side(ins[i - 1]) && Side(ins[i - 2]))
  {
    CrossedIffReached(UpdaterFrom(c), ins, i);
    var n := Needed(UpdaterFrom(c).thresholds, ins[i].result.status);
    assert RunOf(ins, i, n) <==> n <= i + 1 && forall j :: i + 1 - n <= j <= i ==> Side(ins[j]) == Side(ins[i]);
  }

  // ---------------------------------------------------------------- the debouncing budget

  /** How often the recorded status changes to passing (`into`) or away from it. */
  function Changes(u: Updater, ins: seq<Input>, into: bool): nat {
    if ins == [] then 0
    else
      var front := ins[..|ins| - 1];
      var was, now := After(u, front).status == Passing, After(u, ins).status == Passing;
      Changes(u, front, into) + if was != now && now == into then 1 else 0
  }

  function Min(a: nat, b: nat): nat { if a < b then a else b }

  /** Each entry into passing costs `passing` results of its own, and each exit at least the
      smaller failure threshold: flapping is bounded by the number of results. */
  lemma {:induction false} FlappingIsBounded(th: Thresholds, runner: Actions.Runner, ins: seq<Input>)
    ensures var u := NewUpdater(th, runner);
            Changes(u, ins, true) * th.passing + Changes(u, ins, false) * Min(th.warning, th.critical) <= |ins|
  {
    BudgetWithCredit(NewUpdater(th, runner), ins);
  }

  /** Results not yet spent on a change: the run that could lead to the next one. */
  function Credit(u: Updater): nat {
    if u.status == Passing then u.failures else u.successes
  }

  /** One result: a change costs the run it ends, anything else adds at most one to the run. */
  lemma CreditPaysForChanges(u: Updater, r: Result, clk: Clock)
    ensures var v, th := Judge(u, r, clk).next, u.thresholds;
            && v.thresholds == th
            && (u.status != Passing && v.status == Passing ==> th.passing <= Credit(u) + 1 && Credit(v) == 0)
            && (u.status == Passing && v.status != Passing ==>
                  Min(th.warning, th.critical) <= Credit(u) + 1 && Credit(v) == 0)
            && Credit(v) <= Credit(u) + 1
  {
  }

  function Cost(th: Thresholds, entries: nat, exits: nat): nat {
    entries * th.passing + exits * Min(th.warning, th.critical)
  }

  lemma CostOfOneMore(th: Thresholds, e: nat, x: nat)
    ensures Cost(th, e + 1, x) == Cost(th, e, x) + th.passing
    ensures Cost(th, e, x + 1) == Cost(th, e, x) + Min(th.warning, th.critical)
  {
  }

  lemma {:induction false} BudgetWithCredit(u: Updater, ins: seq<Input>)
    requires u.status != Passing && u.successes == 0
    ensures After(u, ins).thresholds == u.thresholds
    ensures Cost(u.thresholds, Changes(u, ins, true), Changes(u, ins, false)) + Credit(After(u, ins)) <= |ins|
    decreases |ins|
  {
    if ins != [] {
      var front, last := ins[..|ins| - 1], ins[|ins| - 1];
      BudgetWithCredit(u, front);
      CreditPaysForChanges(After(u, front), last.result, last.clock);
      CostOfOneMore(u.thresholds, Changes(u, front, true), Changes(u, front, false));
    }
  }

  // ---------------------------------------------------------------- announcements

  /** The statuses of the results that crossed their threshold, and of those that were announced. */
  function Crossings(u: Updater, ins: seq<Input>): seq<Status> {
    if ins == [] then []
    else
      var i := |ins| - 1;
      Crossings(u, ins[..i]) + if VerdictAt(u, ins, i).crossed then [ins[i].result.status] else []
  }

  function Announced(u: Updater, ins: seq<Input>): seq<Status> {
    if ins == [] then []
    else
      var i := |ins| - 1;
      Announced(u, ins[..i]) + if VerdictAt(u, ins, i).announce then [ins[i].result.status] else []
  }

  function Dedup(ss: seq<Status>): seq<Status> {
    if |ss| <= 1 then ss
    else
      var front := ss[..|ss| - 1];
      if front[|front| - 1] == ss[|ss| - 1] then Dedup(front) else Dedup(front) + [ss[|ss| - 1]]
  }

  lemma {:induction false} DedupKeepsLast(ss: seq<Status>)
    requires ss != []
    ensures Dedup(ss) != [] && Dedup(ss)[|Dedup(ss)| - 1] == ss[|ss| - 1]
    decreases |ss|
  {
    if |ss| > 1 {
      DedupKeepsLast(ss[..|ss| - 1]);
    }
  }

  lemma {:induction false} DedupOneMore(ss: seq<Status>, s: Status)
    ensures Dedup(ss + [s]) == Dedup(ss) + if ss != [] && ss[|ss| - 1] == s then [] else [s]
  {
    assert (ss + [s])[..|ss|] == ss;
  }

  function Plus(ss: seq<Status>, more: bool, s: Status): seq<Status> {
    if more then ss + [s] else ss
  }

  /** What one more result adds, and to which recorded status. */
  lemma OneMoreResult(u: Updater, ins: seq<Input>) returns (crossed: bool, announced: bool)
    requires ins != []
    ensures var i := |ins| - 1;
            var r, was, now := ins[i].result, After(u, ins[..i]), After(u, ins);
            && Crossings(u, ins) == Plus(Crossings(u, ins[..i]), crossed, r.status)
            && Announced(u, ins) == Plus(Announced(u, ins[..i]), announced, r.status)
            && now.status == (if crossed then r.status else was.status)
            && now.initialized == (crossed || was.initialized)
            && (!r.noNotification ==> announced == (crossed && (was.status != r.status || !was.initialized)))
  {
    var v := VerdictAt(u, ins, |ins| - 1);
    crossed, announced := v.crossed, v.announce;
  }

  /** What was announced and what crossed so far, against the recorded status. */
  ghost predicate SaysChanges(crossings: seq<Status>, said: seq<Status>, status: Status, initialized: bool) {
    && said == Dedup(crossings)
    && (initialized <==> crossings != []) && (initialized <==> said != [])
    && (initialized ==> crossings[|crossings| - 1] == status && said[|said| - 1] == status)
  }

  lemma OneMoreSaid(crossings: seq<Status>, said: seq<Status>, status: Status, initialized: bool, crossed: bool,
                    s: Status)
    requires SaysChanges(crossings, said, status, initialized)
    ensures SaysChanges(Plus(crossings, crossed, s), Plus(said, crossed && (status != s || !initialized), s),
                        if crossed then s else status, crossed || initialized)
  {
    DedupOneMore(crossings, s);
    DedupKeepsLast(crossings + [s]);
  }

  /** With no result asking for silence, what is announced is the sequence of threshold-crossing
      statuses without consecutive repeats, and the last one announced is the recorded one. */
  lemma {:induction false} AnnouncementsAreTheChanges(th: Thresholds, runner: Actions.Runner, ins: seq<Input>)
    requires forall i :: 0 <= i < |ins| ==> !ins[i].result.noNotification
    ensures var u := NewUpdater(th, runner);
            var v, said := After(u, ins), Announced(u, ins);
            && said == Dedup(Crossings(u, ins))
            && (v.initialized <==> said != [])
            && (v.initialized ==> said[|said| - 1] == v.status)
  {
    var u := NewUpdater(th, runner);
    ChangesFollow(u, ins);
  }

  lemma {:induction false} ChangesFollow(u: Updater, ins: seq<Input>)
    requires !u.initialized && forall i :: 0 <= i < |ins| ==> !ins[i].result.noNotification
    ensures SaysChanges(Crossings(u, ins), Announced(u, ins), After(u, ins).status, After(u, ins).initialized)
    decreases |ins|
  {
    if ins != [] {
      var i := |ins| - 1;
      var was := After(u, ins[..i]);
      ChangesFollow(u, ins[..i]);
      var crossed, announced := OneMoreResult(u, ins);
      OneMoreSaid(Crossings(u, ins[..i]), Announced(u, ins[..i]), was.status, was.initialized, crossed,
                  ins[i].result.status);
    }
  }

  /** What a delivered result hands over: its announcement if it is to be announced, then its
      action's run if one started, each with the result's status and error. */
  lemma DeliverHandsOver(s: System, step: Step)
    requires step.Deliver? && step.name in s.checks
    ensures var v := Judge(s.checks[step.name], step.result, step.clock);
            var log, log' := s.world.log, Next(s, step).world.log;
            var k := if v.announce then 1 else 0;
            && log <= log' && |log'| == |log| + k + (if v.act then 1 else 0)
            && (forall i :: |log| <= i < |log'| ==>
                  log'[i].status == step.result.status && log'[i].error == step.result.error)
            && (v.announce ==> log'[|log|].kind == Transition)
            && (v.act ==> log'[|log| + k].kind == ActionRun)
  {
  }
}
