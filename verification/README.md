# Incident engine of health-go: a Dafny model

This project models the part of health-go that turns check results into incidents, and proves what
holds over whole runs of it: any number of checks, results, maintenance windows and restarts.

How the parts fit together:

- `Types.dfy`: statuses, results, clock readings, and the record of everything handed to the
  notification sender (the outbox). An action run is recorded when its number is reserved.
- `Events.dfy`, `Actions.dfy`, `Updates.dfy`, `Containers.dfy`: the event tracker, the action runner, the
  status updater and the container. Each file holds a specification (datatypes and functions) and the
  class that updates its fields in place, every method proved equal to the specification.
  `Containers.dfy` also defines the system as a state machine: `Register`, `Deliver` a result, `Restart`.
- `Ledger.dfy`, `Invariants.dfy`, `Incidents.dfy`: lists of single tracker calls, which are answered like
  a four-line tracker would, and which numbers they are given; what every step keeps; the claims about
  event numbers, events, resolutions, statuses and the handler.
- `RestoredChecks.dfy`, `Simulation.dfy`, `Restarts.dfy`: a check against its restored copy; two systems
  that mirror each other; a restored process against the one that stopped.
- `Debounce.dfy`: the counters against a definition over the history of results; the flapping budget;
  what is announced.
- `ActionRuns.dfy`: when and how often actions run over whole traces, for every combination of settings.
- `Entries.dfy`: everything a check hands over, told from its results alone.
- `Rows.dfy`, `Persister.dfy`: the SQLite row of a check, and the write-behind buffer in front of it.
- `MaintenanceFile.dfy`: the parser of the line that silences notifications.

Lemmas about recursive functions switch automatic induction off, so that each proof is what its body says.

What is a parameter instead of modelled: the random event ID (`newID`; runs assume it is not empty and
was never handed out before), the clock (two readings per dispatch, one compared and one stored), the
check functions themselves (a result simply arrives). One call on a check is one step.

Findings, each proved with its exact condition and a concrete input:

- A pair (event, number) is issued twice exactly if a number is asked for after a `ClearSequence` that
  dropped the event's counter, which interleaved recoveries of two checks do
  (`NumbersRepeatExactlyAfterDrops`; `InterleavedRecoveriesRepeatANumber`, `SharedEventFromMaintenance`).
- A process that dies without saving and the one restored from its last snapshot issue the same numbers
  of an event exactly if the event was held in the snapshot and both issued numbers on it since
  (`StaleSnapshotRepeatsNumbers`).
- A process restored before some check's first threshold crossing can be told apart from the one that
  stopped exactly if that crossing is an unsilenced critical, whose alert it leaves out
  (`RestoredProcessBehavesLikeStopped`, `EarlySnapshotLosesExactlyTheCriticalAlert`;
  `RestartSwallowsTheFirstAlert`).
- An `UnlockOnlyAfterHealthy` action runs once per block of its outcome only if no other action with a
  command has a cooldown (`RunsOncePerBlockExactly`; `CooldownHidesABlock`).
- A restart through the database shortens a cooldown, by less than a second, exactly if the last run did
  not fall on a whole second (`RestartShortensCooldown`, `WholeSecondRunsStayApart`;
  `RestartBringsRunsCloser`).
- Two flushes in flight can put back an older value (`WriteKeepsViewExactly`; `TwoFlushesPutBackAnOldValue`).
- `Close` keeps every saved value under all schedules of the outstanding flushes exactly if none of their
  values is at stake (`CloseKeepsViewExactly`); otherwise it can lose a save whose timer has fired
  (`CloseCanLoseAFiredSave`) or leave an older value (`CloseCanPutBackAnOldValue`).
- A duration of more than 9223372036 seconds in a maintenance file is not read back
  (`PrintedSecondsParseBack`).

Where code and documentation differ, the model follows the code: `maintenanceEventID` can stay set after
maintenance ends (the comment at `events.go:123-124` speaks of clearing it when all checks are healthy), which
`ReleasedEventNeverReturns` shows to be harmless.

## Model

| member | source | states |
|---|---|---|
| Events.EventTracker.GetOrCreateEventID | events.go:68-80 | answers and changes the tracker exactly as `Attach` on its value; the claims about `Attach` are the lemmas below |
| Events.EventTracker.HandleMaintenanceCheck | events.go:83-108 | maintenance starts with a new event and forgets earlier sharers, ends by releasing only its own event |
| Events.EventTracker.HandleRegularCheck | events.go:111-157 | a failing check keeps its event or joins or starts one; a healthy one gets the ended event back |
| Events.EventTracker.MaybeCleanupMaintenanceEvent | events.go:160-176 | clears the maintenance event exactly when maintenance is over and no check holds it |
| Events.EventTracker.Attached | events.go:166-171 | the loop finds an event exactly if some check holds it |
| Events.EventTracker.GetNextSequence | events.go:208-219 | the event's counter goes up by one and is returned; no number without an event |
| Events.EventTracker.ClearSequence | events.go:225-238 | drops the counter exactly when no check holds the event |
| Events.EventTracker.RestoreState | events.go:266-285 | takes over the saved maps and fields; maps the state never had are kept |
| Actions.ActionRunner.Success | actions.go:53-107 | the runner, the tracker and the outbox change as one dispatched pass |
| Actions.ActionRunner.Failure | actions.go:110-162 | the same for a critical |
| Actions.ActionRunner.Warning | actions.go:165-217 | the same for a warning |
| Actions.ActionRunner.Timeout | actions.go:220-272 | the same for a timeout |
| Actions.ActionRunner.RestoreState | actions.go:330-356 | saved action states apply only where the action is still configured |
| Updates.StatusUpdater.Update | status.go:85-177 | counts the result, and only on a crossed threshold records, announces, acts and ends events |
| Entries.EntriesAreThoseOfTheHistory | status.go:85-177 | from its registration on, whatever happens to other checks, a check hands over exactly one announcement for every delivered result that crosses its threshold with a new status and does not ask for silence, and one run for every crossing on which its action is due, in order, with the result's status and error |
| Entries.SilentResultIsNotAnnounced | status.go:133 | a delivered result that asks for silence adds no announcement, whatever its status |
| Entries.ActionsFollowCrossings | status.go:112-173 | the state of a check's actions is that of the trace of the results that crossed, so the claims of `ActionRuns` are about the system |
| Updates.StatusUpdater.Announce | status.go:28-57 | attaches the new check to an event and announces that it is starting |
| Updates.StatusUpdater.GetState | status.go:236-259 | the saved form of the check |
| Updates.StatusUpdater.RestoreState | status.go:262-301 | loads the saved form and re-announces an incident as restored |
| Containers.Health.Register | health.go:65-126 | registers fresh or restored, as a `Register` step; refuses empty and taken names with nothing changed |
| Debounce.CrossesAsConfigured | health.go:91-93 | a result crosses exactly if it ends a run as long as configured for its status, or as the default where none is configured |
| Incidents.RegistrationConfigures | health.go:95-117 | a registered check has an action for exactly the configured outcomes, each with its own settings, and its saved last run and flag if it has any; an action added since then has never run and is not ready |
| Containers.Health.Check | check.go:73-99 | a run of a check function ends as its response or its timeout: an error is a warning if the response says so or errors are skipped, else critical; a timeout is neither softened nor silenced; the result arrives as a `Deliver` step |
| Debounce.RecordedIsWhatTheRunShows | check.go:79-97 | what is recorded is what the last run that crossed shows: timeout, no error, an error that is a warning by itself or by `SkipOnErr`, or another; with its error text, and silent exactly if its response asks for it |
| Containers.Health.Deliver | check.go:85-97 | a result at one check is a `Deliver` step and leaves all other checks alone |
| Containers.Health.Status | health.go:183-240 | the merged status is at least as bad as every check and some check's own; the failures are the checks' errors |
| Containers.Health.HandlerCode | health.go:134-161 | the status code of the merged status |
| Containers.Health.SaveState | health.go:260-283 | stores the tracker and every registered check, keeping other stored checks |
| Incidents.RestartSaves | status.go:236-259 | stopping saves every registered check's counters, status, error text and actions as they are, and leaves the saved states of others |
| Containers.Health.Reboot | health.go:19-57 | saving and starting a new process from the same store is a `Restart` step |
| Ledger.AttachIsSimple | events.go:83-176 | every call answers like a tracker that keeps only the event map, and the extra map and flag stay determined by it |
| Ledger.TrackerAnswersLikeSimple | events.go:59-176 | for every list of single tracker calls, however interleaved, the IDs handed out are those of the simple tracker |
| Ledger.NumbersRepeatExactlyAfterDrops | events.go:208-238 | for every tracker, event and list of calls, however interleaved: the numbers given go on counting, and none is given twice, exactly if none is asked for after a `ClearSequence` that dropped the counter |
| Ledger.InterleavedRecoveriesRepeatANumber | status.go:130-139 | from any tracker in which two checks are an event's last holders, their interleaved recoveries get its next number and then 1 |
| Ledger.SharedEventFromMaintenance | status.go:130-139 | a concrete such history out of maintenance, in which number 1 is given twice |
| Invariants.StepMoves | status.go:85-177 | a step touches tracker and outbox only by attaching or releasing its own check and handing over entries of that one event |
| Invariants.StepHolds | events.go:68-157 | the event map after any step, told by the simple tracker alone |
| Invariants.StepKeepsSound | events.go:59-285 | every step keeps tracker, log, counters, recorded and saved statuses in agreement |
| Invariants.ReachableIsSound | events.go:59-285 | hence every reachable state has them in agreement |
| Incidents.EventNumbersAreOneTwoThree | events.go:208-237 | over every run the numbers of each event are exactly 1, 2, 3, ... in order |
| Incidents.LaterEntriesHaveLargerNumbers | events.go:221-237 | no (event, number) pair is issued twice, and later entries of an event have larger numbers |
| Incidents.CountersBelongToHeldEvents | events.go:225-238 | between steps every counter belongs to an event some check holds, so there are no more counters than checks with an event |
| Incidents.StaleSnapshotRepeatsNumbers | events.go:267-285 | what a lost run and a process restored from its earlier snapshot both issue on an event: exactly the numbers after the snapshot's up to the smaller count, on events held in the snapshot and no others |
| Incidents.NumbersSince | events.go:208-219 | over any run an event's new entries carry exactly the numbers after its earlier ones, and the event was held before or minted since |
| Incidents.MaintenanceChecksAreTheSharers | events.go:142-149 | `maintenanceChecks` is exactly the set of other checks holding the maintenance event, so its fallback branch is never taken |
| Incidents.MaintenanceEventIsClearedByLastSharer | events.go:160-176 | the stored maintenance event is cleared exactly by the step that releases its last holder after maintenance; an event nobody shares when maintenance ends is left over |
| Incidents.LaterIncidentIsNew | events.go:134-156 | a check can get an earlier event again only while the maintenance check still holds it |
| Incidents.ReleasedEventNeverReturns | events.go:84-108 | an event no check holds is never attached again, a leftover maintenance event included |
| Incidents.EventIsStable | status.go:101-106 | a check keeps its event and all its entries carry it until its own resolution, whatever else happens |
| Incidents.ResolutionMatchesItsAlerts | status.go:101-139 | the resolution carries the event of all entries since, with larger numbers, and ends the check's hold |
| Incidents.RegistrationHandsOver | health.go:97-117 | what a registration announces: a start, a restored incident on its old event, or nothing |
| Incidents.PassingMeansNoEvent | status.go:124-141 | recorded as passing exactly if no event is held; maintenance is active exactly if its check is not passing |
| Incidents.HandlerAnswersOkExactlyWithoutEvents | health.go:145-157 | 200 exactly when no registered check holds an event, hence when there are no active events once all saved checks are registered |
| Incidents.HandlerAnswersByWorstCheck | health.go:164-181 | 503 exactly if some check is critical or timed out, 429 exactly if otherwise some check warns |
| Incidents.WorstIsUnique | health.go:215-222 | the merged status does not depend on the order of merging |
| Restarts.RestoredProcessBehavesLikeStopped | status.go:236-301 | for every future the restored process cannot be told apart from the stopped one, but for new events' names and numbers ahead by the restored notifications, exactly if no check without a crossing so far first crosses as an unsilenced critical |
| Restarts.RestoredProcessKeepsState | status.go:236-301 | in any case it records the same statuses and holds the same events, and hands over one entry less for each such check |
| Restarts.RestartSwallowsTheFirstAlert | status.go:272-274 | register, restart, register, deliver a critical: only the process that was not restarted announces it |
| Restarts.ReopenedBehavesLikeExact | persister/sqlite/sqlite.go:569-646 | where all last runs fell on whole seconds, a process that reads its checks from their rows does in every future what one with an exact store does |
| Simulation.StepShadows | status.go:262-301 | for two systems related by a renaming, a step keeps checks and events alike, whatever is announced |
| Simulation.StepMirrors | status.go:262-301 | and entries and counters up to a shift, if the step is not the first alert of a check restored early |
| Simulation.RunAdds | status.go:94-105 | over any run the second system leaves out exactly one entry for each check restored early whose first crossing is an unsilenced critical |
| Restarts.StepKeepsConfiguration | actions.go:330-356 | no step changes what a check was configured with, so registering it again matches |
| RestoredChecks.EarlySnapshotLosesExactlyTheCriticalAlert | status.go:272-274 | for every list of results after a snapshot before the first crossing: same crossings, statuses and actions; the announcements agree exactly if the first crossing is no unsilenced critical, and otherwise exactly that leading alert is missing |
| RestoredChecks.JudgeAlike | status.go:85-177 | one result: the restored copy counts, crosses and acts alike, and announces everything but an unsilenced critical first crossing |
| Debounce.CheckSeesOnlyItsResults | status.go:85-92 | a check's state is a function of the results delivered to it |
| Debounce.CountersCountRuns | status.go:108-175 | the counters are the lengths of the trailing runs of passes and of failures of any kind |
| Debounce.CrossedIffReached | status.go:112-165 | crossing a threshold is ending a run of same-side results as long as the status needs |
| Debounce.RecordedIsLastReached | status.go:108-175 | the recorded status and error are those of the last result that ended such a run |
| Debounce.NothingRecordedYet | status.go:66-73 | while there is none, the synthetic critical stays |
| Debounce.SkippedErrorsAreNeverCritical | check.go:88-97 | a check with `SkipOnErr` is recorded as critical only before its first crossing, as timed out only after a run that timed out, and as passing only after a response without an error |
| Debounce.DefaultThresholds | health.go:91-93 | without thresholds any failure is recorded at once and a pass only as the third in a row |
| Debounce.FlappingIsBounded | status.go:108-175 | entries into passing times their threshold plus exits times the smaller failure threshold is at most the number of results |
| Debounce.AnnouncementsAreTheChanges | status.go:94-173 | without silenced results, what is announced is the crossing statuses without repeats, ending in the recorded one |
| Debounce.DeliverHandsOver | status.go:129-139 | a result hands over its announcement, then its action's run, with its own status and error |
| ActionRuns.RunsOncePerBlock | actions.go:53-68 | an `UnlockOnlyAfterHealthy` action runs once per maximal block of its outcome if no other action can hold the status back |
| ActionRuns.RunsOncePerBlockExactly | actions.go:110-161 | it does so on all traces exactly if every other action is absent, of that kind, without cooldown or without command |
| ActionRuns.CooldownHidesABlock | actions.go:119-124 | otherwise a concrete trace has three blocks and two runs |
| ActionRuns.RunsAreSpaced | actions.go:119-155 | recorded runs of a cooldown action are a cooldown apart, less at most a second across restarts |
| ActionRuns.WindowHoldsFewRuns | actions.go:119-155 | so runs within a window of length T number at most T / gap + 1 |
| ActionRuns.RunsExactlyWhenDue | actions.go:62-161 | without restarts a cooldown action runs exactly when its outcome comes a cooldown or more after its last run, a success action moreover only if the runner is not passing yet |
| ActionRuns.UngatedRunsEveryTime | actions.go:119-124 | an action with neither setting runs every time its outcome comes, over restarts too; a success action every time the runner is not passing yet |
| ActionRuns.OnlyAfterHealthyRunsOnChange | actions.go:112-118 | an action with `UnlockOnlyAfterHealthy` runs exactly if its outcome is not the runner's status |
| ActionRuns.OnlyCoolingHoldsStatusBack | actions.go:53-124 | the runner's status is the last outcome, unless that outcome's own action was cooling |
| ActionRuns.CommandlessStaysReady | actions.go:127-133 | an action without a command never runs, but is ready from the first result of its outcome on |
| ActionRuns.ReadyActionRunsNext | actions.go:126-133 | an action that is ready runs at the next result of its outcome, whatever its settings |
| ActionRuns.SuccessRunsNeedAFailureBetween | actions.go:62-69 | a success action never runs twice without a failing outcome in between, so not on every pass |
| ActionRuns.RestartThroughRow | actions.go:330-356 | saving a runner to a row and loading it only cuts its last run times |
| ActionRuns.RestartShortensCooldown | persister/sqlite/sqlite.go:599-604 | after a restart the action is due a cooldown after the whole second of its last run, so never early exactly if the run fell on a whole second |
| ActionRuns.WholeSecondRunsStayApart | persister/sqlite/sqlite.go:599-604 | runs stay a whole cooldown apart over every trace whose restarts find the last run on a whole second |
| ActionRuns.RestartBringsRunsCloser | persister/sqlite/sqlite.go:599-604 | for every fraction of a second a trace with one restart whose two runs are closer than the cooldown by it |
| Rows.SaveRow | persister/sqlite/sqlite.go:569-646 | the row written for a state loads as its normal form |
| Rows.ScanCheckState | persister/sqlite/sqlite.go:256-346 | the single-row loader gives `Loaded`, and no state without a row |
| Rows.ScanCheckStateFromRows | persister/sqlite/sqlite.go:349-437 | the loader of one row among all gives the same, with the name |
| Rows.LoadAllCheckStates | persister/sqlite/sqlite.go:238-252 | every row of the table is loaded once, as the single loader would |
| Rows.NormalIsStable | persister/sqlite/sqlite.go:256-346 | a second round trip changes nothing |
| Persister.SqlitePersister.SaveEventTrackerState | persister/sqlite/sqlite.go:121-128 | the newest tracker state is pending and a timer armed |
| Persister.SqlitePersister.SaveCheckState | persister/sqlite/sqlite.go:182-189 | the check's newest state is pending and a timer armed |
| Persister.SqlitePersister.ScheduleSave | persister/sqlite/sqlite.go:482-494 | an armed timer is never pushed back |
| Persister.SqlitePersister.TakePending | persister/sqlite/sqlite.go:497-503 | the pending batch moves in flight as a whole |
| Persister.SqlitePersister.OnTimer | persister/sqlite/sqlite.go:487-493 | a due timer disarms itself and flushes what is pending then |
| Persister.SqlitePersister.WriteBatch | persister/sqlite/sqlite.go:505-527 | every row of the batch is written, unless closed |
| Persister.SqlitePersister.StopTimer | persister/sqlite/sqlite.go:458-463 | the timer is disarmed; if it had fired already, its function is still to come |
| Persister.SqlitePersister.MarkClosed | persister/sqlite/sqlite.go:469-475 | nothing is written any more |
| Persister.SqlitePersister.Close | persister/sqlite/sqlite.go:456-479 | the three in a row with no other flush between them: stop, flush, mark |
| Persister.BufferAgreesWithDirectStore | persister/sqlite/sqlite.go:496-527 | database under batches in flight under pending always equals a store that writes at once, if batches are written oldest first |
| Persister.WriteKeepsViewExactly | persister/sqlite/sqlite.go:497-527 | writing any batch keeps that agreement exactly if no older batch in flight disagrees on a key no later one has |
| Persister.TwoFlushesPutBackAnOldValue | persister/sqlite/sqlite.go:487-503 | two flushes at once can end with the older value in the database |
| Persister.CloseKeepsViewExactly | persister/sqlite/sqlite.go:456-527 | over all schedules of the outstanding flushes between the closer's steps: the closed database holds what was saved exactly if each value of those flushes is the newest, and stored already or sure to be written by the closer |
| Persister.CloseWritesEverything | persister/sqlite/sqlite.go:456-479 | with no batch in flight and no timer fired, a close leaves exactly the direct store, and nothing changes it later |
| Persister.CloseCanLoseAFiredSave | persister/sqlite/sqlite.go:487-510 | a concrete schedule in which a fired timer takes the save before the closer and finds the persister closed |
| Persister.CloseCanPutBackAnOldValue | persister/sqlite/sqlite.go:466-475 | a concrete schedule in which an older flush writes between the closer's flush and its mark, although a newer value was pending |
| Persister.UndisturbedClose | persister/sqlite/sqlite.go:456-479 | the schedule without other flushes is what the method `Close` does |
| Persister.NoSaveStarves | persister/sqlite/sqlite.go:482-494 | one interval after a save the database holds that save or a newer one of the same check, however many saves follow |
| Persister.SavesAreBatched | persister/sqlite/sqlite.go:482-494 | however fast the saves come, flushes are an interval apart and the database changes with them only |
| MaintenanceFile.ParseNotificationDisable | checks/maintenance/check.go:106-132 | found exactly if the prefix occurs; after its first occurrence, no underscore or no digit means until further notice, and a number, leading zeros included, its seconds in nanoseconds modulo 64 bits, exact up to 9223372036 |
| MaintenanceFile.DigitsAreANumber | checks/maintenance/check.go:117-124 | every string of digits is a printed number behind leading zeros, so these are all the numbers a line can hold |
| MaintenanceFile.CutFindsFirst | checks/maintenance/check.go:109-112 | the text is cut behind the first occurrence |
| MaintenanceFile.PrintedSecondsParseBack | checks/maintenance/check.go:114-131 | a printed number of seconds reads back exactly if it is at most 9223372036 |

## Left out

- StatusUpdater without a tracker: `Register` always passes one.
- Interleaving inside one call on a check: one call is one step, except for the tracker calls of `Ledger`.
- Containers.Health.Reboot: takes the snapshot of the tracker and of all checks at one instant, while the source saves them one after the other and results can arrive in between.
- RestoredProcessBehavesLikeStopped: is about a store that keeps times exactly; `ReopenedBehavesLikeExact` carries it to the database for last runs on whole seconds, and `ActionRuns` says what cutting the others changes.
- CloseKeepsViewExactly: no state is saved while the persister closes, and a timer function clears only its own timer, not one armed after it fired.
- WindowHoldsFewRuns: requires that no run of a command is pending at the start, which only a command added to a saved action without one could break; so do RunsAreSpaced, RunsExactlyWhenDue, UngatedRunsEveryTime and SuccessRunsNeedAFailureBetween. `ReadyActionRunsNext` says what a pending one does.
- RunsOncePerBlock: requires clock readings later than year 292, so that an action that never ran is past any cooldown.
- One `Action` object shared by two outcomes or two checks: every action belongs to one outcome of one check.
- The maintenance check's name is fixed at construction; options, intervals, timeouts, jitter, pausing and goroutines are not modelled.
- Running commands, their output, notifier lists and tags: an entry carries check, kind, status, error, event and number.
- The notification channel and its disable window: the claims are about what is handed to the sender.
- Unknown status strings and negative thresholds: statuses are an enumeration and thresholds natural numbers.
- `maintenanceChecks` entries with the value false: the code never stores one.
- SQL, JSON, files and failing writes; the text of a time column is whole seconds or malformed.
- `DeleteCheckState`, the other persisters, and all other checkers under `checks/`.
- HTTP writing, JSON of the response, tracing and system metrics.
