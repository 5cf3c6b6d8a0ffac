/**
 * The shared timer registry as the widget sees it. The real registry keeps
 * elapsed time per key and mirrors it to a file; that machinery is not part
 * of this model. Here it holds the one record that belongs to this widget:
 * whether its timer runs, the seconds it has left, and the log of every call
 * the widget made, in order. The effects of a call on the record are the
 * plain meaning of its name; whether an increment succeeds is not known to
 * the widget, so it is left open.
 */
module Registry {

  /** What the widget passes when it resets or starts its timer. */
  datatype TimerSettings = TimerSettings(
    timerId: string,
    counterLength: nat,
    fileName: string,
    fileTitlePrefix: string,
    resetOnStart: bool,
    fileCountdownEndText: string,
    clearFileOnReset: bool)

  /** One call made on the registry. */
  datatype Call =
    | Reset(settings: TimerSettings)
    | Start(settings: TimerSettings)
    | Stop(timerId: string)
    | Increment(timerId: string, seconds: nat, succeeded: bool)

  class TimerRegistry {
    var enabled: bool
    var remaining: nat
    var log: seq<Call>

    constructor ()
      ensures !enabled && remaining == 0 && log == []
    {
      enabled, remaining, log := false, 0, [];
    }

    /** Sets the remaining time back to the full length; running or not is kept. */
    method ResetTimer(ts: TimerSettings)
      modifies this
      ensures enabled == old(enabled) && remaining == ts.counterLength
      ensures log == old(log) + [Reset(ts)]
    {
      remaining := ts.counterLength;
      log := log + [Reset(ts)];
    }

    method StartTimer(ts: TimerSettings)
      modifies this
      ensures enabled && remaining == old(remaining)
      ensures log == old(log) + [Start(ts)]
    {
      enabled := true;
      log := log + [Start(ts)];
    }

    method StopTimer(timerId: string)
      modifies this
      ensures !enabled && remaining == old(remaining)
      ensures log == old(log) + [Stop(timerId)]
    {
      enabled := false;
      log := log + [Stop(timerId)];
    }

    /** Adds time; the outcome is up to the registry and is reported back. */
    method IncrementTimer(timerId: string, seconds: nat) returns (ok: bool)
      modifies this
      ensures enabled == old(enabled)
      ensures remaining == old(remaining) + (if ok then seconds else 0)
      ensures log == old(log) + [Increment(timerId, seconds, ok)]
    {
      ok := *;
      if ok {
        remaining := remaining + seconds;
      }
      log := log + [Increment(timerId, seconds, ok)];
    }
  }
}
