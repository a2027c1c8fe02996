/** How often actions run over whole traces of dispatched outcomes. */
module ActionRuns {
  import opened Types
  import opened Actions
  import opened Updates
  import opened Rows

  /** An outcome reaches the runner, or the process restarts through the database. */
  datatype Item = Happened(outcome: Outcome, clock: Clock) | Restarted

  function CutSlot(s: Option<Slot>): Option<Slot> {
    if s.Some? then Some(s.value.(lastRun := Whole(s.value.lastRun))) else None
  }

  /** The runner after a restart: its last run times lose their fractions of a second. */
  function Cut(r: Runner): Runner {
    Runner(r.status, CutSlot(r.success), CutSlot(r.warning), CutSlot(r.failure), CutSlot(r.timeout))
  }

  /** The same actions as configured, before any run. */
  function Reset(s: Option<Slot>): Option<Slot> {
    if s.Some? then Some(s.value.(lastRun := 0, canRun := false)) else None
  }

  function Configured(r: Runner): Runner {
    Runner(Initializing, Reset(r.success), Reset(r.warning), Reset(r.failure), Reset(r.timeout))
  }

  /** `Cut` is what saving a runner to a row and loading it into a new process does. */
  lemma RestartThroughRow(r: Runner)
    ensures RestoreRunner(Configured(r), NormalRunner(Some(SaveRunner(r)))) == Cut(r)
  {
  }

  function After(r: Runner, items: seq<Item>): Runner {
    if items == [] then r
    else
      var before, last := After(r, items[..|items| - 1]), items[|items| - 1];
      if last.Restarted? then Cut(before) else Dispatch(before, last.outcome, last.clock).0
  }

  lemma AfterOneMore(r: Runner, items: seq<Item>)
    requires items != []
    ensures After(r, items) == After(After(r, items[..|items| - 1]), [items[|items| - 1]])
  {
    var last := [items[|items| - 1]];
    assert last[..0] == [];
    assert After(After(r, items[..|items| - 1]), []) == After(r, items[..|items| - 1]);
  }

  /** Whether the i-th item starts the command of outcome o's action. */
  predicate RunsAt(r: Runner, items: seq<Item>, i: nat, o: Outcome)
    requires i < |items|
  {
    items[i].Happened? && items[i].outcome == o && Dispatch(After(r, items[..i]), o, items[i].clock).1
  }

  /** The recorded times of the runs of one outcome's action. */
  function RunTimes(r: Runner, items: seq<Item>, o: Outcome): seq<Time> {
    if items == [] then []
    else
      var i := |items| - 1;
      RunTimes(r, items[..i], o) + if RunsAt(r, items, i, o) then [items[i].clock.run] else []
  }

  /** The clock never goes back, and reads a time more than the longest duration after the zero
      time (any year from 293 on), so an action that never ran is always past its cooldown. */
  ghost predicate Timely(items: seq<Item>) {
    && (forall i :: 0 <= i < |items| && items[i].Happened? ==> MAX_INT64 <= items[i].clock.gate <= items[i].clock.run)
    && (forall i, j :: 0 <= i < j < |items| && items[i].Happened? && items[j].Happened? ==>
          items[i].clock.run <= items[j].clock.gate)
  }

  // ---------------------------------------------------------------- run once per block

  /** How many maximal blocks of this outcome a trace without restarts has. */
  function Blocks(items: seq<Item>, o: Outcome): nat {
    if items == [] then 0
    else
      var i := |items| - 1;
      Blocks(items[..i], o) +
      if Is(items[i], o) && (i == 0 || !Is(items[i - 1], o)) then 1 else 0
  }

  predicate Is(i: Item, o: Outcome) { i.Happened? && i.outcome == o }

  predicate NoRestart(items: seq<Item>) {
    forall i :: 0 <= i < |items| ==> items[i].Happened?
  }

  /** An action that never keeps a dispatched outcome from becoming the runner's status. */
  predicate Transparent(s: Option<Slot>) {
    s.None? || s.value.onlyAfterHealthy || s.value.cooldown <= 0 || s.value.command == ""
  }

  predicate OthersTransparent(r: Runner, o: Outcome) {
    forall p: Outcome :: p != o ==> Transparent(r.SlotFor(p))
  }

  /** A runner as it is built from its configuration. */
  predicate Fresh(r: Runner) {
    r == Configured(r)
  }

  predicate OncePerBlock(s: Option<Slot>) {
    s.Some? && s.value.onlyAfterHealthy && s.value.command != ""
  }

  /** A slot along a trace from a fresh one: as configured, without a pending run of a command,
      and last run no later than `limit`. */
  predicate SlotFollows(s0: Option<Slot>, s: Option<Slot>, limit: Time) {
    && (s0.Some? <==> s.Some?)
    && (s.Some? ==>
          && s0.value == s.value.(lastRun := 0, canRun := false)
          && (s.value.command != "" ==> !s.value.canRun)
          && (s.value.command == "" ==> s.value.lastRun == 0)
          && (s.value.lastRun == 0 || s.value.lastRun <= limit))
  }

  predicate Follows(r0: Runner, r: Runner, limit: Time) {
    && SlotFollows(r0.success, r.success, limit) && SlotFollows(r0.warning, r.warning, limit)
    && SlotFollows(r0.failure, r.failure, limit) && SlotFollows(r0.timeout, r.timeout, limit)
  }

  /** One slot, unlocked or not, and fired if it can. */
  function Dispatched(s: Slot, unlocks: bool, now: Time): Slot {
    Fire(if unlocks then s.(canRun := true) else s, now).0
  }

  lemma FiredFollows(s0: Option<Slot>, s: Slot, unlocks: bool, clk: Clock, limit: Time)
    requires SlotFollows(s0, Some(s), clk.gate) && clk.gate <= clk.run <= limit
    ensures SlotFollows(s0, Some(Dispatched(s, unlocks, clk.run)), limit)
  {
  }

  lemma TransparentUnlocks(s0: Option<Slot>, s: Slot, status: Status, o: Outcome, now: Time)
    requires SlotFollows(s0, Some(s), now) && Transparent(s0) && MAX_INT64 <= now
    ensures Unlocks(s, status, o, now) || status == o
  {
  }

  lemma DispatchedIs(r: Runner, o: Outcome, clk: Clock)
    ensures match r.SlotFor(o)
            case None => Dispatch(r, o, clk).0 == r.(status := o)
            case Some(s) =>
              var unlocks := Unlocks(s, r.status, o, clk.gate);
              Dispatch(r, o, clk).0 ==
              r.(status := if unlocks then o else r.status).With(o, Dispatched(s, unlocks, clk.run))
  {
  }

  lemma SlotFollowsLater(s0: Option<Slot>, s: Option<Slot>, now: Time, limit: Time)
    requires SlotFollows(s0, s, now) && now <= limit
    ensures SlotFollows(s0, s, limit)
  {
  }

  lemma FollowsLater(r0: Runner, r: Runner, now: Time, limit: Time)
    requires Follows(r0, r, now) && now <= limit
    ensures Follows(r0, r, limit)
  {
    SlotFollowsLater(r0.success, r.success, now, limit);
    SlotFollowsLater(r0.warning, r.warning, now, limit);
    SlotFollowsLater(r0.failure, r.failure, now, limit);
    SlotFollowsLater(r0.timeout, r.timeout, now, limit);
  }

  lemma WithFollows(r0: Runner, r: Runner, o: Outcome, s: Slot, limit: Time)
    requires Follows(r0, r, limit) && SlotFollows(r0.SlotFor(o), Some(s), limit)
    ensures Follows(r0, r.With(o, s), limit) && r.With(o, s).status == r.status
  {
    match o
    case Passing =>
    case Warning =>
    case Critical =>
    case Timeout =>
  }

  lemma DispatchFollows(r0: Runner, r: Runner, o: Outcome, clk: Clock, limit: Time)
    requires Follows(r0, r, clk.gate) && MAX_INT64 <= clk.gate <= clk.run <= limit
    requires Transparent(r0.SlotFor(o))
    ensures var r' := Dispatch(r, o, clk).0; Follows(r0, r', limit) && r'.status == o
  {
    DispatchedIs(r, o, clk);
    FollowsSlot(r0, r, clk.gate, o);
    FollowsLater(r0, r, clk.gate, limit);
    if r.SlotFor(o).Some? {
      var s := r.SlotFor(o).value;
      var unlocks := Unlocks(s, r.status, o, clk.gate);
      TransparentUnlocks(r0.SlotFor(o), s, r.status, o, clk.gate);
      FiredFollows(r0.SlotFor(o), s, unlocks, clk, limit);
      WithFollows(r0, r.(status := if unlocks then o else r.status), o, Dispatched(s, unlocks, clk.run), limit);
    }
  }

  lemma {:induction false} TraceFollows(r: Runner, items: seq<Item>, limit: Time)
    requires Fresh(r) && NoRestart(items) && Timely(items)
    requires forall p: Outcome :: Transparent(r.SlotFor(p))
    requires forall i :: 0 <= i < |items| ==> items[i].clock.run <= limit
    ensures Follows(r, After(r, items), limit)
    ensures After(r, items).status == if items == [] then Initializing else items[|items| - 1].outcome
    decreases |items|
  {
    if items != [] {
      var front, last := items[..|items| - 1], items[|items| - 1];
      TraceFollows(r, front, last.clock.gate);
      DispatchFollows(r, After(r, front), last.outcome, last.clock, limit);
    }
  }

  lemma AllTransparent(r: Runner, o: Outcome)
    requires OncePerBlock(r.SlotFor(o)) && OthersTransparent(r, o)
    ensures forall p: Outcome :: Transparent(r.SlotFor(p))
  {
  }

  lemma RunsWhenStatusChanges(r: Runner, o: Outcome, clk: Clock)
    requires OncePerBlock(r.SlotFor(o)) && !r.SlotFor(o).value.canRun
    ensures Dispatch(r, o, clk).1 <==> r.status != o
  {
  }

  lemma FollowsSlot(r0: Runner, r: Runner, limit: Time, o: Outcome)
    requires Follows(r0, r, limit)
    ensures SlotFollows(r0.SlotFor(o), r.SlotFor(o), limit)
  {
  }

  lemma LastRunStartsABlock(r: Runner, items: seq<Item>, o: Outcome)
    requires Fresh(r) && NoRestart(items) && Timely(items) && items != []
    requires OncePerBlock(r.SlotFor(o)) && OthersTransparent(r, o)
    ensures var i := |items| - 1;
            RunsAt(r, items, i, o) <==> Is(items[i], o) && (i == 0 || !Is(items[i - 1], o))
  {
    var front, last := items[..|items| - 1], items[|items| - 1];
    AllTransparent(r, o);
    TraceFollows(r, front, last.clock.gate);
    FollowsSlot(r, After(r, front), last.clock.gate, o);
    RunsWhenStatusChanges(After(r, front), o, last.clock);
  }

  /** An action that unlocks only after another outcome runs once for every maximal block of its
      own outcome, if no other action can hold the status back ... */
  lemma {:induction false} RunsOncePerBlock(r: Runner, items: seq<Item>, o: Outcome)
    requires Fresh(r) && NoRestart(items) && Timely(items)
    requires OncePerBlock(r.SlotFor(o)) && OthersTransparent(r, o)
    ensures |RunTimes(r, items, o)| == Blocks(items, o)
    decreases |items|
  {
    if items != [] {
      RunsOncePerBlock(r, items[..|items| - 1], o);
      LastRunStartsABlock(r, items, o);
    }
  }

  /** ... and only then: an action with a command and a cooldown, once run, leaves the status
      alone until the cooldown is over, and the block after it goes unnoticed. */
  lemma CooldownHidesABlock(r: Runner, o: Outcome, p: Outcome) returns (items: seq<Item>)
    requires Fresh(r) && OncePerBlock(r.SlotFor(o)) && p != o && !Transparent(r.SlotFor(p))
    ensures NoRestart(items) && Timely(items) && |RunTimes(r, items, o)| == 2 && Blocks(items, o) == 3
  {
    var clk := Clock(MAX_INT64, MAX_INT64);
    var own, other := Happened(o, clk), Happened(p, clk);
    items := [own, other, own, other, own];
    FiveItemsThreeBlocks(own, other, o);
    FiveItemsTwoRuns(r, o, p, clk);
  }

  lemma {:induction false} FiveItemsThreeBlocks(own: Item, other: Item, o: Outcome)
    requires Is(own, o) && !Is(other, o)
    ensures Blocks([own, other, own, other, own], o) == 3
  {
    var i1, i2, i3, i4 := [own], [own, other], [own, other, own], [own, other, own, other];
    assert i2[..1] == i1 && i3[..2] == i2 && i4[..3] == i3 && [own, other, own, other, own][..4] == i4;
    assert Blocks(i1, o) == 1 && Blocks(i2, o) == 1 && Blocks(i3, o) == 2 && Blocks(i4, o) == 2;
  }

  lemma {:induction false} FiveItemsTwoRuns(r: Runner, o: Outcome, p: Outcome, clk: Clock)
    requires Fresh(r) && OncePerBlock(r.SlotFor(o)) && p != o && !Transparent(r.SlotFor(p))
    requires clk == Clock(MAX_INT64, MAX_INT64)
    ensures var own, other := Happened(o, clk), Happened(p, clk);
            |RunTimes(r, [own, other, own, other, own], o)| == 2
  {
    var own, other := Happened(o, clk), Happened(p, clk);
    var r1, r2, r3, r4, r5 := OwnAndOther(r, o, p, clk);
    OneMore(r, [], own, o, r, r1, true, [own]);
    OneMore(r, [own], other, o, r1, r2, Dispatch(r1, p, clk).1, [own, other]);
    OneMore(r, [own, other], own, o, r2, r3, true, [own, other, own]);
    OneMore(r, [own, other, own], other, o, r3, r4, Dispatch(r3, p, clk).1, [own, other, own, other]);
    OneMore(r, [own, other, own, other], own, o, r4, r5, false, [own, other, own, other, own]);
  }

  /** One item more. */
  lemma {:induction false} OneMore(r: Runner, items: seq<Item>, item: Item, o: Outcome, before: Runner, after: Runner,
                                   ran: bool, all: seq<Item>)
    requires item.Happened? && After(r, items) == before && Dispatch(before, item.outcome, item.clock) == (after, ran)
    requires all == items + [item]
    ensures After(r, all) == after
    ensures |RunTimes(r, all, o)| == |RunTimes(r, items, o)| + if item.outcome == o && ran then 1 else 0
  {
    assert all[..|items|] == items;
  }

  /** Five dispatches at one instant: the other action runs the first time and is cooling the second. */
  lemma OwnAndOther(r: Runner, o: Outcome, p: Outcome, clk: Clock)
    returns (r1: Runner, r2: Runner, r3: Runner, r4: Runner, r5: Runner)
    requires Fresh(r) && OncePerBlock(r.SlotFor(o)) && p != o && !Transparent(r.SlotFor(p))
    requires clk == Clock(MAX_INT64, MAX_INT64)
    ensures Dispatch(r, o, clk) == (r1, true) && Dispatch(r1, p, clk).0 == r2
    ensures Dispatch(r2, o, clk) == (r3, true) && Dispatch(r3, p, clk).0 == r4
    ensures Dispatch(r4, o, clk) == (r5, false)
  {
    var s, q := r.SlotFor(o).value, r.SlotFor(p).value;
    var s', q' := s.(canRun := false, lastRun := clk.run), q.(canRun := false, lastRun := clk.run);
    r1 := Dispatch(r, o, clk).0;
    assert r1.status == o && r1.SlotFor(o) == Some(s') && r1.SlotFor(p) == Some(q);
    r2 := Dispatch(r1, p, clk).0;
    assert r2.status == p && r2.SlotFor(o) == Some(s') && r2.SlotFor(p) == Some(q');
    r3 := Dispatch(r2, o, clk).0;
    assert r3.status == o && r3.SlotFor(o) == Some(s') && r3.SlotFor(p) == Some(q');
    r4 := Dispatch(r3, p, clk).0;
    assert r4.status == o && r4.SlotFor(o) == Some(s');
    r5 := Dispatch(r4, o, clk).0;
  }

  lemma {:induction false} RunsOncePerBlockExactly(r: Runner, o: Outcome)
    requires Fresh(r) && OncePerBlock(r.SlotFor(o))
    ensures (forall items :: NoRestart(items) && Timely(items) ==> |RunTimes(r, items, o)| == Blocks(items, o))
       <==> OthersTransparent(r, o)
  {
    if OthersTransparent(r, o) {
      forall items | NoRestart(items) && Timely(items)
        ensures |RunTimes(r, items, o)| == Blocks(items, o)
      {
        RunsOncePerBlock(r, items, o);
      }
    } else {
      var p: Outcome :| p != o && !Transparent(r.SlotFor(p));
      var items := CooldownHidesABlock(r, o, p);
      assert NoRestart(items) && Timely(items) && |RunTimes(r, items, o)| != Blocks(items, o);
    }
  }

  // ---------------------------------------------------------------- cooldowns

  predicate Cooling(s: Option<Slot>) {
    s.Some? && !s.value.onlyAfterHealthy && s.value.cooldown > 0
  }

  /** No run of a command is pending. */
  predicate Idle(s: Option<Slot>) {
    s.Some? && s.value.command != "" && !s.value.canRun
  }

  /** The separation that holds between runs; a restart may cost up to a second of it. */
  function Gap(r: Runner, items: seq<Item>, o: Outcome): int
    requires r.SlotFor(o).Some?
  {
    var d := r.SlotFor(o).value.cooldown;
    if NoRestart(items) then d else d - SECOND + 1
  }

  ghost predicate Spaced(times: seq<Time>, gap: int) {
    forall i :: 0 < i < |times| ==> times[i] - times[i - 1] >= gap
  }

  /** Along a trace the slot's last run is the last recorded run, cut to seconds by restarts. */
  ghost predicate Tracks(s0: Slot, s: Option<Slot>, times: seq<Time>, cut: bool) {
    && s.Some? && s.value == s0.(lastRun := s.value.lastRun)
    && (times != [] ==>
          var last := times[|times| - 1];
          s.value.lastRun == last || (cut && s.value.lastRun == Whole(last)))
  }

  lemma {:induction false} SlotStep(r: Runner, item: Item, o: Outcome)
    requires Cooling(r.SlotFor(o)) && Idle(r.SlotFor(o))
    ensures var s, s' := r.SlotFor(o), After(r, [item]).SlotFor(o);
            if item.Restarted? then s' == CutSlot(s)
            else if item.outcome == o && Dispatch(r, o, item.clock).1
            then s' == Some(s.value.(lastRun := item.clock.run))
                 && item.clock.gate - s.value.lastRun >= s.value.cooldown
            else s' == s
  {
    assert [item][..0] == [];
    assert After(r, []) == r;
  }

  /** The recorded times after one more item. */
  function TimesWith(r: Runner, item: Item, o: Outcome, times: seq<Time>): seq<Time> {
    if item.Happened? && item.outcome == o && Dispatch(r, o, item.clock).1 then times + [item.clock.run] else times
  }

  /** Whether this restart cuts a fraction off the last run. */
  predicate Cuts(item: Item, times: seq<Time>) {
    item.Restarted? && times != [] && times[|times| - 1] % SECOND != 0
  }

  lemma {:induction false} StepIsSpaced(r: Runner, item: Item, o: Outcome, s0: Slot, times: seq<Time>, gap: int,
                                        cut: bool)
    requires Cooling(Some(s0)) && Idle(Some(s0)) && (item.Happened? ==> item.clock.gate <= item.clock.run)
    requires Tracks(s0, r.SlotFor(o), times, cut) && Spaced(times, gap)
    requires gap <= s0.cooldown && (cut ==> gap <= s0.cooldown - SECOND + 1)
    ensures var times' := TimesWith(r, item, o, times);
            Spaced(times', gap) && Tracks(s0, After(r, [item]).SlotFor(o), times', cut || Cuts(item, times))
  {
    SlotStep(r, item, o);
  }

  lemma TimesOneMore(r: Runner, items: seq<Item>, o: Outcome)
    requires items != []
    ensures var front, last := items[..|items| - 1], items[|items| - 1];
            RunTimes(r, items, o) == TimesWith(After(r, front), last, o, RunTimes(r, front, o))
  {
  }

  lemma {:induction false} RunsAreSpaced(r: Runner, items: seq<Item>, o: Outcome)
    requires Cooling(r.SlotFor(o)) && Idle(r.SlotFor(o)) && Timely(items)
    ensures Spaced(RunTimes(r, items, o), Gap(r, items, o))
    ensures Tracks(r.SlotFor(o).value, After(r, items).SlotFor(o), RunTimes(r, items, o), !NoRestart(items))
    decreases |items|
  {
    if items != [] {
      var front, last := items[..|items| - 1], items[|items| - 1];
      RunsAreSpaced(r, front, o);
      AfterOneMore(r, items);
      TimesOneMore(r, items, o);
      StepIsSpaced(After(r, front), last, o, r.SlotFor(o).value, RunTimes(r, front, o), Gap(r, items, o),
                   !NoRestart(front));
    }
  }

  /** Every restart finds the last recorded run on a whole second. */
  ghost predicate RestartsCutNothing(r: Runner, items: seq<Item>, o: Outcome) {
    forall j :: 0 <= j < |items| ==> !Cuts(items[j], RunTimes(r, items[..j], o))
  }

  /** If restarts cut nothing off the last run, runs stay a whole cooldown apart across them. */
  lemma {:induction false} WholeSecondRunsStayApart(r: Runner, items: seq<Item>, o: Outcome)
    requires Cooling(r.SlotFor(o)) && Idle(r.SlotFor(o)) && Timely(items) && RestartsCutNothing(r, items, o)
    ensures Spaced(RunTimes(r, items, o), r.SlotFor(o).value.cooldown)
    ensures Tracks(r.SlotFor(o).value, After(r, items).SlotFor(o), RunTimes(r, items, o), false)
    decreases |items|
  {
    if items != [] {
      var front, last := items[..|items| - 1], items[|items| - 1];
      assert forall j :: 0 <= j < |front| ==> front[j] == items[j] && front[..j] == items[..j];
      WholeSecondRunsStayApart(r, front, o);
      AfterOneMore(r, items);
      TimesOneMore(r, items, o);
      var s0 := r.SlotFor(o).value;
      StepIsSpaced(After(r, front), last, o, s0, RunTimes(r, front, o), s0.cooldown, false);
    }
  }

  /** A restart that cuts `fraction` off the last run brings the next one closer by as much. */
  lemma RestartBringsRunsCloser(r: Runner, o: Outcome, fraction: nat) returns (items: seq<Item>)
    requires Fresh(r) && Cooling(r.SlotFor(o)) && Idle(r.SlotFor(o)) && o != Passing
    requires 0 < fraction < SECOND && fraction <= r.SlotFor(o).value.cooldown
    ensures Timely(items) && |items| == 3 && items[1] == Restarted && !RestartsCutNothing(r, items, o)
    ensures var times := RunTimes(r, items, o);
            |times| == 2 && times[1] - times[0] == r.SlotFor(o).value.cooldown - fraction
  {
    var second := (MAX_INT64 / SECOND + 1) * SECOND;
    var first, due := second + fraction, second + r.SlotFor(o).value.cooldown;
    var a, b := Happened(o, Clock(first, first)), Happened(o, Clock(due, due));
    items := [a, Restarted, b];
    var i0: seq<Item> := [];
    assert items[..2] == [a, Restarted] && items[..1] == [a] && [a, Restarted][..1] == [a] && [a][..0] == i0;
    var r1 := Dispatch(r, o, a.clock).0;
    assert After(r, i0) == r && After(r, [a]) == r1 && After(r, [a, Restarted]) == Cut(r1);
    assert r1.SlotFor(o) == Some(r.SlotFor(o).value.(lastRun := first));
    assert Whole(first) == second;
    assert Cut(r1).SlotFor(o).value.lastRun == second;
    DueIsRun(Cut(r1), o, b.clock);
    assert RunTimes(r, i0, o) == [];
    assert RunTimes(r, [a], o) == [first];
    assert RunTimes(r, [a, Restarted], o) == [first];
    assert RunTimes(r, items, o) == [first, due];
    assert Cuts(items[1], RunTimes(r, items[..1], o));
  }

  /** Two recorded runs of a cooldown action are never closer than its cooldown, and across
      restarts through the database never closer than a second less; so any window of length T
      holds at most T / gap + 1 runs. */
  lemma {:induction false} WindowHoldsFewRuns(r: Runner, items: seq<Item>, o: Outcome, i: nat, j: nat)
    requires Cooling(r.SlotFor(o)) && Idle(r.SlotFor(o)) && Timely(items)
    requires i <= j < |RunTimes(r, items, o)|
    ensures var times, gap := RunTimes(r, items, o), Gap(r, items, o);
            gap > 0 ==> j - i + 1 <= (times[j] - times[i]) / gap + 1
  {
    RunsAreSpaced(r, items, o);
    SpacedApart(RunTimes(r, items, o), Gap(r, items, o), i, j);
    if Gap(r, items, o) > 0 {
      DivisionBound(j - i, Gap(r, items, o), RunTimes(r, items, o)[j] - RunTimes(r, items, o)[i]);
    }
  }

  lemma {:induction false} SpacedApart(times: seq<Time>, gap: int, i: nat, j: nat)
    requires Spaced(times, gap) && i <= j < |times|
    ensures times[j] - times[i] >= (j - i) * gap
    decreases j - i
  {
    if i < j {
      SpacedApart(times, gap, i, j - 1);
      assert (j - i) * gap == (j - 1 - i) * gap + gap;
    }
  }

  lemma DivisionBound(n: int, gap: int, d: int)
    requires gap > 0 && d >= n * gap
    ensures n <= d / gap
  {
    var q := d / gap;
    assert d < (q + 1) * gap;
    assert n >= q + 1 ==> n * gap >= (q + 1) * gap;
  }

  /** When the action of an outcome ran last. */
  function LastRun(r: Runner, items: seq<Item>, o: Outcome): Time
    requires r.SlotFor(o).Some?
  {
    var times := RunTimes(r, items, o);
    if times == [] then r.SlotFor(o).value.lastRun else times[|times| - 1]
  }

  lemma {:induction false} LastRunIsKept(r: Runner, items: seq<Item>, o: Outcome)
    requires Cooling(r.SlotFor(o)) && Idle(r.SlotFor(o)) && NoRestart(items) && Timely(items)
    ensures After(r, items).SlotFor(o) == Some(r.SlotFor(o).value.(lastRun := LastRun(r, items, o)))
  {
    RunsAreSpaced(r, items, o);
    if RunTimes(r, items, o) == [] {
      FirstRunUntouched(r, items, o);
    }
  }

  /** Without restarts, a cooldown action runs exactly when its outcome comes at least a cooldown after
      its last run; a success action moreover needs the runner not to be passing yet. */
  lemma {:induction false} RunsExactlyWhenDue(r: Runner, items: seq<Item>, o: Outcome, i: nat)
    requires Cooling(r.SlotFor(o)) && Idle(r.SlotFor(o))
    requires NoRestart(items) && Timely(items) && i < |items|
    ensures RunsAt(r, items, i, o) <==>
              && Is(items[i], o)
              && items[i].clock.gate - LastRun(r, items[..i], o) >= r.SlotFor(o).value.cooldown
              && (o == Passing ==> After(r, items[..i]).status != Passing)
  {
    LastRunIsKept(r, items[..i], o);
    if Is(items[i], o) {
      DueIsRun(After(r, items[..i]), o, items[i].clock);
    }
  }

  lemma DueIsRun(r: Runner, o: Outcome, clk: Clock)
    requires Cooling(r.SlotFor(o)) && Idle(r.SlotFor(o))
    ensures Dispatch(r, o, clk).1 <==>
              && clk.gate - r.SlotFor(o).value.lastRun >= r.SlotFor(o).value.cooldown
              && (o == Passing ==> r.status != Passing)
  {
  }

  predicate Ungated(s: Option<Slot>) {
    s.Some? && !s.value.onlyAfterHealthy && s.value.cooldown <= 0
  }

  /** An action with neither setting runs every time its outcome comes, over restarts too; a success
      action every time the runner is not passing yet. */
  lemma {:induction false} UngatedRunsEveryTime(r: Runner, items: seq<Item>, o: Outcome, i: nat)
    requires Ungated(r.SlotFor(o)) && Idle(r.SlotFor(o)) && r.SlotFor(o).value.lastRun <= MAX_INT64
    requires Timely(items) && i < |items|
    ensures RunsAt(r, items, i, o) <==>
            Is(items[i], o) && (o == Passing ==> After(r, items[..i]).status != Passing)
  {
    if Is(items[i], o) {
      UngatedStaysPast(r, items[..i], o, items[i].clock.gate);
      UngatedRuns(After(r, items[..i]), o, items[i].clock);
    }
  }

  lemma {:induction false} UngatedStaysPast(r: Runner, items: seq<Item>, o: Outcome, limit: Time)
    requires Ungated(r.SlotFor(o)) && Idle(r.SlotFor(o)) && r.SlotFor(o).value.lastRun <= MAX_INT64 <= limit
    requires forall i :: 0 <= i < |items| && items[i].Happened? ==> items[i].clock.run <= limit
    ensures var s := After(r, items).SlotFor(o);
            Ungated(s) && Idle(s) && s.value.lastRun <= limit
    decreases |items|
  {
    if items != [] {
      UngatedStaysPast(r, items[..|items| - 1], o, limit);
      UngatedStep(After(r, items[..|items| - 1]), items[|items| - 1], o, limit);
    }
  }

  lemma UngatedStep(r: Runner, item: Item, o: Outcome, limit: Time)
    requires Ungated(r.SlotFor(o)) && Idle(r.SlotFor(o)) && r.SlotFor(o).value.lastRun <= limit
    requires item.Happened? ==> item.clock.run <= limit
    ensures var s := (if item.Restarted? then Cut(r) else Dispatch(r, item.outcome, item.clock).0).SlotFor(o);
            Ungated(s) && Idle(s) && s.value.lastRun <= limit
  {
  }

  lemma UngatedRuns(r: Runner, o: Outcome, clk: Clock)
    requires Ungated(r.SlotFor(o)) && Idle(r.SlotFor(o)) && r.SlotFor(o).value.lastRun <= clk.gate
    ensures Dispatch(r, o, clk).1 <==> (o == Passing ==> r.status != Passing)
  {
  }

  lemma {:induction false} SlotStays(r: Runner, items: seq<Item>, o: Outcome)
    ensures var s, s' := r.SlotFor(o), After(r, items).SlotFor(o);
            && (s'.Some? <==> s.Some?)
            && (s.Some? ==> s'.value == s.value.(lastRun := s'.value.lastRun, canRun := s'.value.canRun))
    decreases |items|
  {
    if items != [] {
      SlotStays(r, items[..|items| - 1], o);
    }
  }

  /** The runner's status is the last outcome, unless that outcome's own action was cooling. */
  lemma {:induction false} OnlyCoolingHoldsStatusBack(r: Runner, items: seq<Item>, i: nat)
    requires NoRestart(items) && Timely(items) && i < |items|
    requires var s := r.SlotFor(items[i].outcome); s.Some? ==> Idle(s) && s.value.lastRun <= MAX_INT64
    ensures var o := items[i].outcome;
            var s := r.SlotFor(o);
            var cooling := Cooling(s) && items[i].clock.gate - LastRun(r, items[..i], o) < s.value.cooldown;
            After(r, items[..i + 1]).status == if cooling then After(r, items[..i]).status else o
  {
    var o, clk := items[i].outcome, items[i].clock;
    assert items[..i + 1][..i] == items[..i];
    SlotBefore(r, items[..i], o, clk.gate);
    StatusAfterDispatch(After(r, items[..i]), o, clk);
  }

  lemma {:induction false} SlotBefore(r: Runner, items: seq<Item>, o: Outcome, limit: Time)
    requires NoRestart(items) && Timely(items) && MAX_INT64 <= limit
    requires r.SlotFor(o).Some? ==> Idle(r.SlotFor(o)) && r.SlotFor(o).value.lastRun <= MAX_INT64
    requires forall i :: 0 <= i < |items| ==> items[i].clock.run <= limit
    ensures var s, s' := r.SlotFor(o), After(r, items).SlotFor(o);
            && (Cooling(s') <==> Cooling(s)) && (Ungated(s') <==> Ungated(s))
            && (Cooling(s) ==> s' == Some(s.value.(lastRun := LastRun(r, items, o))))
            && (Ungated(s) ==> s'.value.lastRun <= limit)
  {
    SlotStays(r, items, o);
    if Cooling(r.SlotFor(o)) {
      LastRunIsKept(r, items, o);
    } else if Ungated(r.SlotFor(o)) {
      UngatedStaysPast(r, items, o, limit);
    }
  }

  lemma StatusAfterDispatch(r: Runner, o: Outcome, clk: Clock)
    requires var s := r.SlotFor(o); Ungated(s) ==> s.value.lastRun <= clk.gate
    ensures var s := r.SlotFor(o);
            Dispatch(r, o, clk).0.status ==
            if Cooling(s) && clk.gate - s.value.lastRun < s.value.cooldown then r.status else o
  {
  }

  /** An action that unlocks only after another outcome runs exactly if the status is another one. */
  lemma {:induction false} OnlyAfterHealthyRunsOnChange(r: Runner, items: seq<Item>, o: Outcome, i: nat)
    requires OncePerBlock(r.SlotFor(o)) && !r.SlotFor(o).value.canRun && i < |items|
    ensures RunsAt(r, items, i, o) <==> Is(items[i], o) && After(r, items[..i]).status != o
  {
    OncePerBlockStaysIdle(r, items[..i], o);
    if Is(items[i], o) {
      RunsWhenStatusChanges(After(r, items[..i]), o, items[i].clock);
    }
  }

  lemma {:induction false} OncePerBlockStaysIdle(r: Runner, items: seq<Item>, o: Outcome)
    requires OncePerBlock(r.SlotFor(o)) && !r.SlotFor(o).value.canRun
    ensures var s := After(r, items).SlotFor(o); OncePerBlock(s) && !s.value.canRun
    decreases |items|
  {
    if items != [] {
      OncePerBlockStaysIdle(r, items[..|items| - 1], o);
    }
  }

  /** An action without a command never runs, but from the first result of its outcome on it is marked
      as ready to. */
  lemma {:induction false} CommandlessStaysReady(r: Runner, items: seq<Item>, o: Outcome)
    requires Fresh(r) && NoRestart(items) && Timely(items)
    requires r.SlotFor(o).Some? && r.SlotFor(o).value.command == ""
    ensures RunTimes(r, items, o) == []
    ensures var ready := exists i :: 0 <= i < |items| && Is(items[i], o);
            && After(r, items).SlotFor(o) == Some(r.SlotFor(o).value.(canRun := ready))
            && (!ready ==> After(r, items).status != o)
    decreases |items|
  {
    if items != [] {
      var front, last := items[..|items| - 1], items[|items| - 1];
      CommandlessStaysReady(r, front, o);
      CommandlessStep(After(r, front), last, o);
      assert forall i :: 0 <= i < |front| ==> front[i] == items[i];
      assert Is(last, o) ==> Is(items[|items| - 1], o);
    }
  }

  /** An action that is ready, say one whose command was configured only after it was marked, runs at the
      next result of its outcome, whatever its settings. */
  lemma {:induction false} ReadyActionRunsNext(r: Runner, items: seq<Item>, o: Outcome, i: nat)
    requires r.SlotFor(o).Some? && r.SlotFor(o).value.canRun && r.SlotFor(o).value.command != ""
    requires i < |items| && Is(items[i], o) && forall j :: 0 <= j < i ==> !Is(items[j], o)
    ensures RunsAt(r, items, i, o)
  {
    ReadyUntilThen(r, items[..i], o);
  }

  lemma {:induction false} ReadyUntilThen(r: Runner, items: seq<Item>, o: Outcome)
    requires r.SlotFor(o).Some? && r.SlotFor(o).value.canRun && r.SlotFor(o).value.command != ""
    requires forall j :: 0 <= j < |items| ==> !Is(items[j], o)
    ensures var s := After(r, items).SlotFor(o); s.Some? && s.value.canRun && s.value.command != ""
    decreases |items|
  {
    if items != [] {
      ReadyUntilThen(r, items[..|items| - 1], o);
    }
  }

  lemma CommandlessStep(r: Runner, item: Item, o: Outcome)
    requires r.SlotFor(o).Some? && r.SlotFor(o).value.command == "" && r.SlotFor(o).value.lastRun == 0
    requires item.Happened? && item.clock.gate >= MAX_INT64 && (r.SlotFor(o).value.canRun || r.status != o)
    ensures var (r', ran) := Dispatch(r, item.outcome, item.clock);
            && r'.SlotFor(o) == Some(r.SlotFor(o).value.(canRun := r.SlotFor(o).value.canRun || item.outcome == o))
            && (item.outcome == o ==> !ran)
            && (item.outcome != o ==> r'.status in {r.status, item.outcome})
  {
  }

  lemma {:induction false} FirstRunUntouched(r: Runner, items: seq<Item>, o: Outcome)
    requires Cooling(r.SlotFor(o)) && Idle(r.SlotFor(o)) && NoRestart(items) && Timely(items)
    requires RunTimes(r, items, o) == []
    ensures After(r, items).SlotFor(o) == r.SlotFor(o)
    decreases |items|
  {
    if items != [] {
      var front, last := items[..|items| - 1], items[|items| - 1];
      FirstRunUntouched(r, front, o);
      AfterOneMore(r, items);
      SlotStep(After(r, front), last, o);
    }
  }

  /** A success action, with whatever cooldown, never runs twice without a failing outcome in
      between: in a normal passing state it stays quiet, across restarts too. */
  lemma SuccessRunsNeedAFailureBetween(r: Runner, items: seq<Item>, i: nat, j: nat)
    requires Idle(r.success)
    requires i < j < |items| && RunsAt(r, items, i, Passing) && RunsAt(r, items, j, Passing)
    ensures exists k :: i < k < j && items[k].Happened? && items[k].outcome != Passing
  {
    if forall k :: i < k < j ==> items[k].Restarted? || items[k].outcome == Passing {
      StaysQuiet(r, items, i, j);
    }
  }

  /** Passing, with no run pending. */
  predicate Quiet(r: Runner) {
    r.status == Passing && Idle(r.success)
  }

  lemma {:induction false} StaysQuiet(r: Runner, items: seq<Item>, i: nat, j: nat)
    requires Idle(r.success) && i < j <= |items| && RunsAt(r, items, i, Passing)
    requires forall k :: i < k < j ==> items[k].Restarted? || items[k].outcome == Passing
    ensures Quiet(After(r, items[..j]))
    decreases j
  {
    assert items[..j][..j - 1] == items[..j - 1];
    if j > i + 1 {
      StaysQuiet(r, items, i, j - 1);
      PassKeepsQuiet(After(r, items[..j - 1]), items[j - 1]);
    } else {
      StaysIdle(r, items[..i]);
      RunEndsQuiet(After(r, items[..i]), items[i].clock);
    }
  }

  lemma PassKeepsQuiet(r: Runner, item: Item)
    requires Quiet(r) && (item.Restarted? || item.outcome == Passing)
    ensures Quiet(if item.Restarted? then Cut(r) else Dispatch(r, item.outcome, item.clock).0)
  {
  }

  lemma RunEndsQuiet(r: Runner, clk: Clock)
    requires Idle(r.success) && Dispatch(r, Passing, clk).1
    ensures Quiet(Dispatch(r, Passing, clk).0)
  {
  }

  lemma {:induction false} StaysIdle(r: Runner, items: seq<Item>)
    requires Idle(r.success)
    ensures Idle(After(r, items).success)
    decreases |items|
  {
    if items != [] {
      StaysIdle(r, items[..|items| - 1]);
    }
  }

  /** After a restart the action is due again `cooldown` after the whole second of its last run:
      on time exactly if the run fell on a whole second. */
  lemma RestartShortensCooldown(s: Slot, o: Outcome, status: Status, now: Time)
    requires Cooling(Some(s)) && s.lastRun >= 0 && (o == Passing ==> status != o)
    ensures Unlocks(CutSlot(Some(s)).value, status, o, now) <==> now >= Whole(s.lastRun) + s.cooldown
    ensures (forall t :: Unlocks(CutSlot(Some(s)).value, status, o, t) ==> t - s.lastRun >= s.cooldown)
       <==> s.lastRun % SECOND == 0
  {
    var t := Whole(s.lastRun) + s.cooldown;
    assert Unlocks(CutSlot(Some(s)).value, status, o, t);
  }
}
