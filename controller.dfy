/**
 * The countdown-timer key: one object per key on the deck, driven by the
 * host's events (settings update, key press, key release, the once-a-second
 * tick) and by the alert flasher's firing. It owns the alert state, the
 * long-press bookkeeping and the parsed durations; it calls the shared timer
 * registry to reset, start, stop and increment its timer, and it sends
 * titles and images to the key, which are recorded here as a list of
 * outputs. The wall clock is passed to the events that read it, in
 * milliseconds.
 */
module Controller {
  import opened Basics
  import opened Colors
  import opened AlertFlash
  import opened Hourglass
  import opened Readout
  import opened Settings
  import opened Registry

  /** A press held strictly longer than this (one second) resets the timer. */
  const RESET_COUNTER_KEYPRESS_LENGTH_MS: int := 1000

  /** Title shown in hourglass mode after a press: running or paused. */
  const RUNNING_GLYPH: string := "\U{25B6}\U{FE0F}"
  const PAUSED_GLYPH: string := "||"

  /** What the key is asked to show, or the host is asked to do. */
  datatype Output =
    | ImageCleared
    | AlertImage(color: Rgba)
    | HourglassShown(image: HourglassImage)
    | TitleSet(title: Option<string>)
    | AlertShown
    | SettingsSaved(settings: PluginSettings)

  /** Whether a press that started at `start` counts as a long press at `now`. */
  predicate LongPressFires(pressed: bool, start: int, now: int)
    ensures LongPressFires(pressed, start, now) <==> pressed && now > start + RESET_COUNTER_KEYPRESS_LENGTH_MS
  {
    pressed && now - start > RESET_COUNTER_KEYPRESS_LENGTH_MS
  }

  /**
   * Exactly one second of holding does not fire, one millisecond more does,
   * nothing fires after release, and once it fires it fires again on every
   * later tick while the key stays down.
   */
  lemma LongPressThreshold(start: int, now: int)
    ensures !LongPressFires(true, start, start + 1000)
    ensures LongPressFires(true, start, start + 1001)
    ensures !LongPressFires(false, start, now)
    ensures LongPressFires(true, start, now) ==> LongPressFires(true, start, now + 1000)
  {
  }

  /** What DisplayHourglass sends for a frame: the title cleared, then the image; nothing when there is no frame. */
  function HourglassOutputs(frame: Option<HourglassImage>): seq<Output> {
    match frame
    case None => []
    case Some(img) => [TitleSet(None), HourglassShown(img)]
  }

  class StreamCountdownTimerAction {
    const timerId: string
    const registry: TimerRegistry
    /** The platform's duration parser, in whole seconds. */
    const tryParse: string -> Option<nat>
    /** The drawing library's HTML colour parser. */
    const fromHtml: string -> Rgba
    /** Height in pixels of the key image. */
    const keyHeight: nat

    var settings: PluginSettings
    var isAlerting: bool
    var alertStage: int
    /** Whether the alert flasher's timer is running. */
    var alertTimerEnabled: bool
    var keyPressed: bool
    var keyPressStart: int
    var timerInterval: nat
    var streamathonIncrement: nat
    var displayCurrentStatus: bool
    /** Everything sent to the key or the host, in order. */
    var outputs: seq<Output>

    /** The stage is one of the flash stages, and the widget alerts exactly while the flasher runs. */
    ghost predicate Valid()
      reads this
    {
      0 <= alertStage < TOTAL_ALERT_STAGES && isAlerting == alertTimerEnabled
    }

    /** The record passed to the registry on reset and start. */
    function Record(): (ts: TimerSettings)
      reads this
      ensures ts.timerId == timerId && ts.counterLength == timerInterval
      ensures ts.fileName == settings.timerFileName && ts.fileTitlePrefix == settings.filePrefix
      ensures ts.resetOnStart == !settings.resumeOnClick
      ensures ts.fileCountdownEndText == settings.countdownEndText && ts.clearFileOnReset == settings.clearFileOnReset
    {
      TimerSettings(timerId, timerInterval, settings.timerFileName, settings.filePrefix,
                    !settings.resumeOnClick, settings.countdownEndText, settings.clearFileOnReset)
    }

    /** What a tick shows in hourglass mode with `remaining` seconds left. */
    function HourglassFrameNow(remaining: int): Option<HourglassImage>
      reads this
    {
      HourglassFrame(keyHeight, remaining, timerInterval, fromHtml(settings.hourglassColor))
    }

    /**
     * A new key: default settings (announced to the host) when none were
     * stored, then both durations parsed; a valid interval pre-arms a timer
     * that is not running.
     */
    constructor (id: string, reg: TimerRegistry, stored: Option<PluginSettings>,
                 parse: string -> Option<nat>, html: string -> Rgba, height: nat)
      modifies reg
      ensures Valid()
      ensures timerId == id && registry == reg && tryParse == parse && fromHtml == html && keyHeight == height
      ensures settings == (if stored.None? then CreateDefaultSettings() else stored.value)
      ensures !isAlerting && alertStage == 0 && !keyPressed && !displayCurrentStatus
      ensures outputs == (if stored.None? then [SettingsSaved(settings)] else [])
      ensures timerInterval == IntervalSeconds(settings, parse)
      ensures streamathonIncrement == IncrementSeconds(settings, parse)
      ensures var arm := ParsedDuration(settings.timerInterval, parse).Some? && !old(reg.enabled);
        && reg.enabled == old(reg.enabled)
        && reg.remaining == (if arm then timerInterval else old(reg.remaining))
        && reg.log == old(reg.log) + (if arm then [Reset(Record())] else [])
    {
      timerId := id;
      registry := reg;
      tryParse := parse;
      fromHtml := html;
      keyHeight := height;
      settings := if stored.None? then CreateDefaultSettings() else stored.value;
      outputs := if stored.None? then [SettingsSaved(CreateDefaultSettings())] else [];
      isAlerting, alertStage, alertTimerEnabled := false, 0, false;
      keyPressed, keyPressStart, displayCurrentStatus := false, 0, false;
      timerInterval, streamathonIncrement := 0, 0;
      new;
      SetTimerInterval();
      SetStreamathonIncrement();
    }

    /**
     * A settings update: the incoming record with the end-text coupling
     * applied, durations parsed again (re-arming a stopped timer when the
     * interval is valid), and the result saved back to the host.
     */
    method ReceivedSettings(incoming: PluginSettings)
      requires Valid()
      modifies this, registry
      ensures Valid()
      ensures settings == Couple(old(settings), incoming)
      ensures timerInterval == IntervalSeconds(settings, tryParse)
      ensures streamathonIncrement == IncrementSeconds(settings, tryParse)
      ensures var arm := ParsedDuration(settings.timerInterval, tryParse).Some? && !old(registry.enabled);
        && registry.enabled == old(registry.enabled)
        && registry.remaining == (if arm then timerInterval else old(registry.remaining))
        && registry.log == old(registry.log) + (if arm then [Reset(Record())] else [])
      ensures outputs == old(outputs) + [SettingsSaved(settings)]
      ensures isAlerting == old(isAlerting) && alertStage == old(alertStage) && alertTimerEnabled == old(alertTimerEnabled)
      ensures keyPressed == old(keyPressed) && keyPressStart == old(keyPressStart)
      ensures displayCurrentStatus == old(displayCurrentStatus)
    {
      settings := Couple(settings, incoming);
      SetTimerInterval();
      SetStreamathonIncrement();
      outputs := outputs + [SettingsSaved(settings)];
    }

    /**
     * A key press. It always records the press (for long-press detection)
     * and, in hourglass mode, asks for a status title on the next tick. Then:
     * a running alert is cancelled and the timer reset; in streamathon mode
     * with the timer running time is added (an alert shows when there is no
     * valid increment or the registry refuses it); otherwise a running timer
     * is paused and a stopped one is started, from the full interval unless
     * "resume on click" is set.
     */
    method KeyPressed(now: int)
      requires Valid()
      modifies this, registry
      ensures Valid()
      ensures keyPressed && keyPressStart == now
      ensures displayCurrentStatus == (old(displayCurrentStatus) || settings.hourglassMode)
      ensures settings == old(settings) && timerInterval == old(timerInterval)
      ensures streamathonIncrement == old(streamathonIncrement) && alertStage == old(alertStage)
      ensures !isAlerting
      // cancelling an alert
      ensures old(isAlerting) ==>
        && registry.log == old(registry.log) + [Reset(Record())]
        && registry.enabled == old(registry.enabled) && registry.remaining == timerInterval
        && outputs == old(outputs) + [ImageCleared]
      // streamathon mode, timer running, no valid increment
      ensures !old(isAlerting) && settings.streamathonMode && old(registry.enabled) && streamathonIncrement == 0 ==>
        && registry.log == old(registry.log)
        && registry.enabled && registry.remaining == old(registry.remaining)
        && outputs == old(outputs) + [AlertShown]
      // streamathon mode, timer running, an increment is attempted
      ensures !old(isAlerting) && settings.streamathonMode && old(registry.enabled) && streamathonIncrement > 0 ==>
        && |registry.log| == |old(registry.log)| + 1
        && registry.log[|old(registry.log)|].Increment?
        && var ok := registry.log[|old(registry.log)|].succeeded;
           && registry.log == old(registry.log) + [Increment(timerId, streamathonIncrement, ok)]
           && registry.enabled
           && registry.remaining == old(registry.remaining) + (if ok then streamathonIncrement else 0)
           && outputs == old(outputs) + (if ok then [] else [AlertShown])
      // pause a running timer
      ensures !old(isAlerting) && !settings.streamathonMode && old(registry.enabled) ==>
        && registry.log == old(registry.log) + [Stop(timerId)]
        && !registry.enabled && registry.remaining == old(registry.remaining)
        && outputs == old(outputs)
      // start a stopped timer, from the full interval unless resuming
      ensures !old(isAlerting) && !old(registry.enabled) ==>
        && registry.log == old(registry.log) + (if settings.resumeOnClick then [] else [Reset(Record())]) + [Start(Record())]
        && registry.enabled
        && registry.remaining == (if settings.resumeOnClick then old(registry.remaining) else timerInterval)
        && outputs == old(outputs)
    {
      keyPressStart := now;
      keyPressed := true;
      if settings.hourglassMode {
        displayCurrentStatus := true;
      }
      if isAlerting {
        isAlerting := false;
        alertTimerEnabled := false;
        ResetTimer();
        outputs := outputs + [ImageCleared];
        return;
      }
      if settings.streamathonMode && registry.enabled {
        if streamathonIncrement > 0 {
          var ok := registry.IncrementTimer(timerId, streamathonIncrement);
          if !ok {
            outputs := outputs + [AlertShown];
          }
        } else {
          outputs := outputs + [AlertShown];
        }
      } else {
        if registry.enabled {
          PauseTimer();
        } else {
          if !settings.resumeOnClick {
            ResetTimer();
          }
          ResumeTimer();
        }
      }
    }

    method KeyReleased()
      requires Valid()
      modifies this`keyPressed
      ensures Valid()
      ensures !keyPressed
    {
      keyPressed := false;
    }

    /**
     * The once-a-second tick. A long press stops and resets the timer. While
     * alerting nothing else happens. Otherwise, reaching zero starts the
     * alert (flasher on, timer stopped); then the key shows the hourglass
     * frame (plus a one-shot status title after a press) or the digits.
     */
    method OnTick(now: int)
      requires Valid()
      modifies this, registry
      ensures Valid()
      ensures settings == old(settings) && timerInterval == old(timerInterval)
      ensures streamathonIncrement == old(streamathonIncrement) && alertStage == old(alertStage)
      ensures keyPressed == old(keyPressed) && keyPressStart == old(keyPressStart)
      ensures
        var longPress := LongPressFires(old(keyPressed), old(keyPressStart), now);
        var log1 := old(registry.log) + (if longPress then [Stop(timerId), Reset(Record())] else []);
        var enabled1 := !longPress && old(registry.enabled);
        var remaining1 := if longPress then timerInterval else old(registry.remaining);
        if old(isAlerting) then
          && isAlerting
          && registry.log == log1 && registry.enabled == enabled1 && registry.remaining == remaining1
          && outputs == old(outputs) && displayCurrentStatus == old(displayCurrentStatus)
        else
          var alert := remaining1 == 0;
          && isAlerting == alert
          && registry.log == log1 + (if alert then [Stop(timerId)] else [])
          && registry.enabled == (enabled1 && !alert)
          && registry.remaining == remaining1
          && if settings.hourglassMode then
               && outputs == old(outputs) + HourglassOutputs(HourglassFrameNow(remaining1))
                    + (if old(displayCurrentStatus)
                       then [TitleSet(Some(if registry.enabled then RUNNING_GLYPH else PAUSED_GLYPH))]
                       else [])
               && !displayCurrentStatus
             else
               && outputs == old(outputs) + [ImageCleared, TitleSet(Some(Title(remaining1, settings.multiline)))]
               && displayCurrentStatus == old(displayCurrentStatus)
    {
      CheckIfResetNeeded(now);
      if isAlerting {
        return;
      }
      var total := registry.remaining;
      if total == 0 && !alertTimerEnabled {
        isAlerting := true;
        alertTimerEnabled := true;
        registry.StopTimer(timerId);
      }
      if settings.hourglassMode {
        DisplayHourglass();
        if displayCurrentStatus {
          displayCurrentStatus := false;
          outputs := outputs + [TitleSet(Some(if registry.enabled then RUNNING_GLYPH else PAUSED_GLYPH))];
        }
        return;
      }
      outputs := outputs + [ImageCleared, TitleSet(Some(Title(total, settings.multiline)))];
    }

    /**
     * One firing of the alert flasher: paint the key with the colour of the
     * current stage, then move to the next stage.
     */
    method TmrAlertElapsed()
      requires Valid()
      modifies this`alertStage, this`outputs
      ensures Valid()
      ensures alertStage == NextStage(old(alertStage))
      ensures outputs == old(outputs) + [AlertImage(StageColor(fromHtml(settings.alertColor), old(alertStage), TOTAL_ALERT_STAGES))]
    {
      var color := GenerateStageColor(fromHtml(settings.alertColor), alertStage, TOTAL_ALERT_STAGES);
      outputs := outputs + [AlertImage(color)];
      alertStage := (alertStage + 1) % TOTAL_ALERT_STAGES;
    }

    method ResetTimer()
      modifies registry
      ensures registry.enabled == old(registry.enabled) && registry.remaining == timerInterval
      ensures registry.log == old(registry.log) + [Reset(Record())]
    {
      registry.ResetTimer(Record());
    }

    method ResumeTimer()
      modifies registry
      ensures registry.enabled && registry.remaining == old(registry.remaining)
      ensures registry.log == old(registry.log) + [Start(Record())]
    {
      registry.StartTimer(Record());
    }

    method PauseTimer()
      modifies registry
      ensures !registry.enabled && registry.remaining == old(registry.remaining)
      ensures registry.log == old(registry.log) + [Stop(timerId)]
    {
      registry.StopTimer(timerId);
    }

    /** The long-press check of a tick: stop and reset when the key has been held over a second. */
    method CheckIfResetNeeded(now: int)
      modifies registry
      ensures var longPress := LongPressFires(keyPressed, keyPressStart, now);
        && registry.log == old(registry.log) + (if longPress then [Stop(timerId), Reset(Record())] else [])
        && registry.enabled == (!longPress && old(registry.enabled))
        && registry.remaining == (if longPress then timerInterval else old(registry.remaining))
    {
      if !keyPressed {
        return;
      }
      if now - keyPressStart > RESET_COUNTER_KEYPRESS_LENGTH_MS {
        PauseTimer();
        ResetTimer();
      }
    }

    /** Parses the interval; a valid one re-arms a timer that is not running. */
    method SetTimerInterval()
      modifies this`timerInterval, registry
      ensures timerInterval == IntervalSeconds(settings, tryParse)
      ensures var arm := ParsedDuration(settings.timerInterval, tryParse).Some? && !old(registry.enabled);
        && registry.enabled == old(registry.enabled)
        && registry.remaining == (if arm then timerInterval else old(registry.remaining))
        && registry.log == old(registry.log) + (if arm then [Reset(Record())] else [])
    {
      timerInterval := 0;
      if settings.timerInterval != "" {
        var parsed := tryParse(settings.timerInterval);
        if parsed.Some? {
          timerInterval := parsed.value;
          if !registry.enabled {
            ResetTimer();
          }
        }
      }
    }

    /** Parses the streamathon increment; it stays zero outside streamathon mode. */
    method SetStreamathonIncrement()
      modifies this`streamathonIncrement
      ensures streamathonIncrement == IncrementSeconds(settings, tryParse)
    {
      streamathonIncrement := 0;
      if settings.streamathonMode && settings.streamathonIncrement != "" {
        var parsed := tryParse(settings.streamathonIncrement);
        if parsed.Some? {
          streamathonIncrement := parsed.value;
        }
      }
    }

    /** The hourglass frame of a tick: nothing when no time is left, else title cleared and image sent. */
    method DisplayHourglass()
      modifies this`outputs
      ensures outputs == old(outputs) + HourglassOutputs(HourglassFrameNow(registry.remaining))
    {
      var totalSeconds := timerInterval;
      var remainingSeconds := registry.remaining;
      if remainingSeconds <= 0 {
        return;
      }
      var color := HourglassColor(fromHtml(settings.hourglassColor), remainingSeconds, totalSeconds);
      var top := if totalSeconds > 0 then Some(FillTop(keyHeight, remainingSeconds, totalSeconds)) else None;
      outputs := outputs + [TitleSet(None), HourglassShown(HourglassImage(color, top))];
    }
  }
}
