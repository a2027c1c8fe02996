/** The database row of a check: what a saved state keeps, and what loading it gives. Times are
    stored as text with whole seconds; a column that was never written is NULL. */
module Rows {
  import opened Types
  import opened Actions
  import opened Updates

  /** A time column: whole seconds since the zero time, or text that does not parse. */
  datatype Stamp = Seconds(s: nat) | Malformed

  datatype Row = Row(
    successes: nat, failures: nat, pendingEventID: string, status: Status, errorMsg: string,
    runnerStatus: Status,
    successLastRun: Option<Stamp>, successCanRun: Option<bool>,
    warningLastRun: Option<Stamp>, warningCanRun: Option<bool>,
    failureLastRun: Option<Stamp>, failureCanRun: Option<bool>,
    timeoutLastRun: Option<Stamp>, timeoutCanRun: Option<bool>,
    updatedAt: Stamp)

  function Whole(t: Time): Time
  {
    t / SECOND * SECOND
  }

  function Format(t: Time): Stamp
    requires t >= 0
  {
    Seconds(t / SECOND)
  }

  /** A parse error is ignored and leaves the zero time. */
  function ParseStamp(s: Stamp): Time {
    if s.Seconds? then s.s * SECOND else 0
  }

  /** Saved times are never before the zero time. */
  predicate Datable(a: Option<ActionState>) {
    a.Some? ==> a.value.lastRun >= 0
  }

  predicate Storable(c: CheckState) {
    && c.updatedAt >= 0
    && (c.runner.Some? ==>
          var r := c.runner.value;
          Datable(r.success) && Datable(r.warning) && Datable(r.failure) && Datable(r.timeout))
  }

  /** The state a round trip leaves: times cut to whole seconds, and a runner in any case. */
  function NormalAction(a: Option<ActionState>): Option<ActionState> {
    if a.Some? then Some(a.value.(lastRun := Whole(a.value.lastRun))) else None
  }

  function NormalRunner(r: Option<RunnerState>): RunnerState {
    if r.None? then RunnerState(Critical, None, None, None, None)
    else
      var s := r.value;
      RunnerState(s.status, NormalAction(s.success), NormalAction(s.warning), NormalAction(s.failure),
                  NormalAction(s.timeout))
  }

  function Normal(c: CheckState): CheckState {
    c.(runner := Some(NormalRunner(c.runner)), updatedAt := Whole(c.updatedAt))
  }

  /** The two columns of an action: both NULL for none, else its flag and its last run's whole second,
      NULL for never. */
  predicate ColumnsHold(lastRun: Option<Stamp>, canRun: Option<bool>, a: Option<ActionState>) {
    match a
    case None => lastRun.None? && canRun.None?
    case Some(state) =>
      && canRun == Some(state.canRun)
      && (if state.lastRun == 0 then lastRun.None?
          else lastRun.Some? && lastRun.value.Seconds?
               && 0 <= state.lastRun - lastRun.value.s * SECOND < SECOND)
  }

  /** Every column of the row holds its own field; a state without a runner is stored as critical. */
  predicate RowHolds(row: Row, c: CheckState) {
    && (row.successes, row.failures, row.pendingEventID) == (c.successes, c.failures, c.pendingEventID)
    && (row.status, row.errorMsg) == (c.status, c.errorMsg)
    && row.updatedAt.Seconds? && 0 <= c.updatedAt - row.updatedAt.s * SECOND < SECOND
    && row.runnerStatus == (if c.runner.Some? then c.runner.value.status else Critical)
    && ColumnsHold(row.successLastRun, row.successCanRun, if c.runner.Some? then c.runner.value.success else None)
    && ColumnsHold(row.warningLastRun, row.warningCanRun, if c.runner.Some? then c.runner.value.warning else None)
    && ColumnsHold(row.failureLastRun, row.failureCanRun, if c.runner.Some? then c.runner.value.failure else None)
    && ColumnsHold(row.timeoutLastRun, row.timeoutCanRun, if c.runner.Some? then c.runner.value.timeout else None)
  }

  method SaveColumns(a: ActionState) returns (lastRun: Option<Stamp>, canRun: Option<bool>)
    requires a.lastRun >= 0
    ensures LoadedAction(lastRun, canRun) == NormalAction(Some(a))
    ensures ColumnsHold(lastRun, canRun, Some(a))
  {
    lastRun := None;
    if a.lastRun != 0 {
      lastRun := Some(Format(a.lastRun));
    }
    canRun := Some(a.canRun);
  }

  /** Writes a row whose loading gives the normal form of the state. */
  method SaveRow(c: CheckState) returns (row: Row)
    requires Storable(c)
    ensures RowHolds(row, c)
    ensures Loaded(row) == Normal(c)
  {
    var runnerStatus := Critical;
    var successLastRun: Option<Stamp>, successCanRun: Option<bool> := None, None;
    var warningLastRun: Option<Stamp>, warningCanRun: Option<bool> := None, None;
    var failureLastRun: Option<Stamp>, failureCanRun: Option<bool> := None, None;
    var timeoutLastRun: Option<Stamp>, timeoutCanRun: Option<bool> := None, None;
    if c.runner.Some? {
      var r := c.runner.value;
      runnerStatus := r.status;
      if r.success.Some? {
        successLastRun, successCanRun := SaveColumns(r.success.value);
      }
      if r.warning.Some? {
        warningLastRun, warningCanRun := SaveColumns(r.warning.value);
      }
      if r.failure.Some? {
        failureLastRun, failureCanRun := SaveColumns(r.failure.value);
      }
      if r.timeout.Some? {
        timeoutLastRun, timeoutCanRun := SaveColumns(r.timeout.value);
      }
    }
    row := Row(c.successes, c.failures, c.pendingEventID, c.status, c.errorMsg, runnerStatus,
               successLastRun, successCanRun, warningLastRun, warningCanRun,
               failureLastRun, failureCanRun, timeoutLastRun, timeoutCanRun, Format(c.updatedAt));
  }

  /** An action is present if either of its columns is. */
  function LoadedAction(lastRun: Option<Stamp>, canRun: Option<bool>): Option<ActionState> {
    if lastRun.None? && canRun.None? then None
    else Some(ActionState(if lastRun.Some? then ParseStamp(lastRun.value) else 0, canRun == Some(true)))
  }

  function Loaded(row: Row): CheckState {
    CheckState(row.successes, row.failures, row.pendingEventID, row.status, row.errorMsg,
               Some(RunnerState(row.runnerStatus,
                                LoadedAction(row.successLastRun, row.successCanRun),
                                LoadedAction(row.warningLastRun, row.warningCanRun),
                                LoadedAction(row.failureLastRun, row.failureCanRun),
                                LoadedAction(row.timeoutLastRun, row.timeoutCanRun))),
               ParseStamp(row.updatedAt))
  }

  /** The time a column stands for: never, if it is NULL or malformed. */
  predicate StandsFor(stamp: Option<Stamp>, t: Time) {
    t == if stamp.Some? && stamp.value.Seconds? then stamp.value.s * SECOND else 0
  }

  /** No action exactly if both columns are NULL; a missing flag means no, a missing or malformed time never. */
  predicate ColumnsGive(lastRun: Option<Stamp>, canRun: Option<bool>, a: Option<ActionState>) {
    && (a.None? <==> lastRun.None? && canRun.None?)
    && (a.Some? ==> (a.value.canRun <==> canRun == Some(true)) && StandsFor(lastRun, a.value.lastRun))
  }

  predicate RowGives(row: Row, c: CheckState) {
    && (c.successes, c.failures, c.pendingEventID) == (row.successes, row.failures, row.pendingEventID)
    && (c.status, c.errorMsg) == (row.status, row.errorMsg) && StandsFor(Some(row.updatedAt), c.updatedAt)
    && c.runner.Some? && c.runner.value.status == row.runnerStatus
    && ColumnsGive(row.successLastRun, row.successCanRun, c.runner.value.success)
    && ColumnsGive(row.warningLastRun, row.warningCanRun, c.runner.value.warning)
    && ColumnsGive(row.failureLastRun, row.failureCanRun, c.runner.value.failure)
    && ColumnsGive(row.timeoutLastRun, row.timeoutCanRun, c.runner.value.timeout)
  }

  /** One action's two columns, as both loaders read them. */
  method ScanAction(lastRun: Option<Stamp>, canRun: Option<bool>) returns (a: Option<ActionState>)
    ensures ColumnsGive(lastRun, canRun, a)
    ensures a == LoadedAction(lastRun, canRun)
  {
    a := None;
    if lastRun.Some? || canRun.Some? {
      var state := ActionState(0, false);
      if lastRun.Some? {
        state := state.(lastRun := ParseStamp(lastRun.value));
      }
      if canRun.Some? {
        state := state.(canRun := canRun.value);
      }
      a := Some(state);
    }
  }

  /** The loader of a single check; no row means no saved state. */
  method ScanCheckState(row: Option<Row>) returns (state: Option<CheckState>)
    ensures row.None? ==> state == None
    ensures row.Some? ==> state == Some(Loaded(row.value)) && RowGives(row.value, state.value)
  {
    if row.None? {
      return None;
    }
    var r := row.value;
    var runner := RunnerState(r.runnerStatus, None, None, None, None);
    var success := ScanAction(r.successLastRun, r.successCanRun);
    var warning := ScanAction(r.warningLastRun, r.warningCanRun);
    var failure := ScanAction(r.failureLastRun, r.failureCanRun);
    var timeout := ScanAction(r.timeoutLastRun, r.timeoutCanRun);
    runner := runner.(success := success, warning := warning, failure := failure, timeout := timeout);
    state := Some(CheckState(r.successes, r.failures, r.pendingEventID, r.status, r.errorMsg, Some(runner),
                             ParseStamp(r.updatedAt)));
  }

  /** The loader of one row among all, which also reads the check's name. */
  method ScanCheckStateFromRows(key: string, r: Row) returns (checkName: string, state: CheckState)
    ensures checkName == key && state == Loaded(r) && RowGives(r, state)
  {
    checkName := key;
    var success := ScanAction(r.successLastRun, r.successCanRun);
    var warning := ScanAction(r.warningLastRun, r.warningCanRun);
    var failure := ScanAction(r.failureLastRun, r.failureCanRun);
    var timeout := ScanAction(r.timeoutLastRun, r.timeoutCanRun);
    state := CheckState(r.successes, r.failures, r.pendingEventID, r.status, r.errorMsg,
                        Some(RunnerState(r.runnerStatus, success, warning, failure, timeout)), ParseStamp(r.updatedAt));
  }

  /** The loader of all checks gives for every row what the single loader gives. */
  method LoadAllCheckStates(table: map<string, Row>) returns (states: map<string, CheckState>)
    ensures states == map n | n in table :: Loaded(table[n])
    ensures forall n :: n in table ==> RowGives(table[n], states[n])
  {
    states := map[];
    var rest := table.Keys;
    while rest != {}
      invariant rest <= table.Keys
      invariant states == map n | n in table.Keys - rest :: Loaded(table[n])
      invariant forall n :: n in states ==> RowGives(table[n], states[n])
      decreases rest
    {
      var n :| n in rest;
      var checkName, state := ScanCheckStateFromRows(n, table[n]);
      states := states[checkName := state];
      rest := rest - {n};
    }
  }

  /** A second round trip changes nothing. */
  lemma NormalIsStable(c: CheckState)
    requires Storable(c)
    ensures Storable(Normal(c)) && Normal(Normal(c)) == Normal(c)
  {
    assert forall t: Time :: t >= 0 ==> Whole(Whole(t)) == Whole(t) >= 0;
  }
}
