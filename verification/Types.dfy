/** Values shared by every part of the incident engine: statuses, results, clock
    readings, and the record of what is handed to the notification sender. */
module Types {

  datatype Option<+T> = None | Some(value: T)

  datatype Status = Passing | Warning | Critical | Timeout | Initializing

  /** What a finished run of a check can report; `Initializing` is never a result. */
  type Outcome = s: Status | s != Initializing witness Passing

  /** One result of a check; `noNotification` is the check's own request to stay quiet. */
  datatype Result = Result(status: Outcome, error: Option<string>, noNotification: bool)

  const SECOND := 1_000_000_000
  const MAX_INT64 := 0x7FFF_FFFF_FFFF_FFFF

  /** Nanoseconds in a signed 64-bit integer. */
  type Duration = d: int | -MAX_INT64 - 1 <= d <= MAX_INT64

  /** Nanoseconds since the zero time (1 January of year 1); 0 means "never". */
  type Time = int

  /** Difference of two times, saturating at the ends of `Duration`. */
  function Since(now: Time, last: Time): Duration {
    var d := now - last;
    if d > MAX_INT64 then MAX_INT64 else if d < -MAX_INT64 - 1 then -MAX_INT64 - 1 else d
  }

  /** The two clock readings of one dispatch: one compared with the last run, one stored as it. */
  datatype Clock = Clock(gate: Time, run: Time)

  datatype Kind = Initial | Transition | Restored | ActionRun

  /** One entry handed to the notification sender, with the event and the number it reserved.
      An action run is recorded when its number is reserved. */
  datatype Emission = Emission(
    check: string, kind: Kind, status: Status, error: Option<string>, eventID: string, sequence: nat)

  /** Value of a map at a key, or a default where the key is absent. */
  function Lookup<K, V>(m: map<K, V>, k: K, default: V): V {
    if k in m then m[k] else default
  }

  /** Everything handed to the notification sender so far, shared by all checks. */
  class Outbox {
    var log: seq<Emission>

    constructor ()
      ensures log == []
    {
      log := [];
    }

    method Send(e: Emission)
      modifies this
      ensures log == old(log) + [e]
    {
      log := log + [e];
    }
  }
}
