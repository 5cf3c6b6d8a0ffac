# Stream countdown timer key — a Dafny model

This project models the countdown-timer key of a Stream Deck plugin
(`streamdeck-streamtimer/StreamCountdownTimerAction.cs`): one object per key
that reacts to the host's events (settings update, key press, key release, the
once-a-second tick) and to the alert flasher's 200 ms firing, drives a shared
timer registry (reset, start, stop, increment), and shows either a digit
readout, an "hourglass" fill bar, or a flashing alert colour.

Modules, one per component of the key:

- `Basics` (`basics.dfy`): `Option`, powers of two, and the fact that truncating an exact quotient of naturals is integer division (what the source's casts of non-negative doubles do).
- `Colors` (`colors.dfy`): RGBA colours with byte channels, the "pure black" test, and the named colours Green (0,128,0), Yellow and Red.
- `AlertFlash` (`alert_flash.dfy`): the stage colour (`GenerateStageColor`, a loop halving the channels in real arithmetic) against its reference `StageColor` (channel / 2^k), and the stage counter modulo 4.
- `Hourglass` (`hourglass.dfy`): the colour rule on the remaining fraction as the source writes it (`GetHourglassColor`, over reals), its integer form with cross-multiplied thresholds (`HourglassColor`), the fill start (`FillTop`), and the frame a tick paints (`HourglassFrame`).
- `Readout` (`readout.dfy`): the hours/minutes/seconds split, the .NET "00" number format, the title layout, and a reader that recovers the hours, minutes and seconds from a title.
- `Settings` (`settings.dfy`): the persisted configuration, its defaults, the coupling between "clear file on reset" and "countdown end text", and the two durations derived from text.
- `Registry` (`registry.dfy`): the shared timer registry reduced to this key's record: running or not, seconds left, and a log of every call.
- `Controller` (`controller.dfy`): the class `StreamCountdownTimerAction` with the source's fields and event methods; each method's postcondition gives the whole new state, the registry calls it made and the outputs it sent.
- `Scenarios` (`scenarios.dfy`): client runs proved from the contracts alone: expiry, the flash cycle and cancel, a streamathon press, and a long press at 1.000 s and at 1.001 s.

External services are parameters of the key's constructor. The duration parser is a function from text to `Option<nat>` in whole seconds. The HTML colour parser is a function from text to `Rgba`. The key image height is a number. The clock is an argument, in milliseconds, of `KeyPressed` and `OnTick`. Whether the registry accepts an increment is left open: `TimerRegistry.IncrementTimer` chooses its result nondeterministically and logs it.

Two details of the code:

- The hourglass fill start truncates `height * remaining/total` with a cast (line 418). It does not round.
- If one update changes both `clearFileOnReset` and `countdownEndText`, the `clearFileOnReset` change is tested first (line 138). The end text is therefore cleared.

## Model

| member | source | states |
|---|---|---|
| `Basics.FloorOfQuotient` | streamdeck-streamtimer/StreamCountdownTimerAction.cs:365 | truncating the exact quotient of two naturals equals integer division |
| `AlertFlash.GenerateStageColor` | streamdeck-streamtimer/StreamCountdownTimerAction.cs:344-366 | halving the channels `stage` times as reals and then truncating gives `StageColor`: alpha copied, each channel divided by 2^k, with the last stage counted as stage 1 |
| `AlertFlash.HalvedIsDivision` | streamdeck-streamtimer/StreamCountdownTimerAction.cs:358-363 | halving a channel k times with integer division equals dividing it by 2^k |
| `AlertFlash.HalvingMonotone` | streamdeck-streamtimer/StreamCountdownTimerAction.cs:358-363 | more halvings never give a larger channel value |
| `AlertFlash.StageColorCycle` | streamdeck-streamtimer/StreamCountdownTimerAction.cs:344-365 | with 4 stages: stage 0 is the configured colour; stage 3 equals stage 1; alpha is kept at every stage; channels do not increase from stage 0 to 1 to 2 |
| `AlertFlash.StageColorNeverBrighter` | streamdeck-streamtimer/StreamCountdownTimerAction.cs:352-365 | no stage has a channel brighter than the configured colour, and alpha is always unchanged |
| `AlertFlash.NextStage` | streamdeck-streamtimer/StreamCountdownTimerAction.cs:379 | one firing keeps the stage in [0, 4) and wraps to 0 exactly from the last stage |
| `AlertFlash.StageAfter` | streamdeck-streamtimer/StreamCountdownTimerAction.cs:379 | the stage after n firings stays in [0, 4) |
| `AlertFlash.StageAfterIsMod` | streamdeck-streamtimer/StreamCountdownTimerAction.cs:379 | after n firings from stage s the stage is (s + n) mod 4 |
| `AlertFlash.StageAfterPeriodic` | streamdeck-streamtimer/StreamCountdownTimerAction.cs:88 | the flash pattern repeats every 4 firings |
| `Hourglass.GetHourglassColor` | streamdeck-streamtimer/StreamCountdownTimerAction.cs:382-401 | the rule on the remaining fraction: a colour with a non-zero channel is returned unchanged; black gives Green exactly above 0.5, Yellow exactly in (0.20, 0.5], Red exactly at or below 0.20 |
| `Hourglass.HourglassColor` | streamdeck-streamtimer/StreamCountdownTimerAction.cs:382-401 | a colour with a non-zero channel is returned unchanged; for a positive total the cross-multiplied rule equals the source's rule on remaining/total (black gives Green above 0.5, Yellow above 0.20, else Red); for a zero total with time left it matches a fraction above both thresholds |
| `Hourglass.ThresholdByCrossMultiplying` | streamdeck-streamtimer/StreamCountdownTimerAction.cs:389-393 | remaining/total > 1/k exactly when k*remaining > total |
| `Hourglass.HourglassColorMonotone` | streamdeck-streamtimer/StreamCountdownTimerAction.cs:389-400 | with the black configuration, less time left never gives a calmer colour (green, then yellow, then red) |
| `Hourglass.FillTop` | streamdeck-streamtimer/StreamCountdownTimerAction.cs:413-418 | the integer fill start equals height minus the truncation of height * (remaining/total) computed exactly |
| `Hourglass.FillTopBounds` | streamdeck-streamtimer/StreamCountdownTimerAction.cs:413-418 | for 0 < remaining <= total the fill start lies in [0, height]; it is 0 when the full interval is left |
| `Hourglass.FillTopMonotone` | streamdeck-streamtimer/StreamCountdownTimerAction.cs:418 | more time left never moves the fill start down |
| `Hourglass.HourglassFrame` | streamdeck-streamtimer/StreamCountdownTimerAction.cs:403-427 | nothing is painted exactly when remaining <= 0; otherwise the frame's colour is `HourglassColor`, a fill start exists exactly when the total is positive, it is `FillTop` then, and it lies in [0, height] when remaining <= total |
| `Hourglass.HourglassFortyPercent` | streamdeck-streamtimer/StreamCountdownTimerAction.cs:403-420 | 40 of 100 seconds on a 100-pixel key with black configured: yellow from row 60 |
| `Readout.Split` | streamdeck-streamtimer/StreamCountdownTimerAction.cs:252-255 | hours*3600 + minutes*60 + seconds == total, with minutes and seconds below 60 |
| `Readout.SplitUnique` | streamdeck-streamtimer/StreamCountdownTimerAction.cs:252-255 | any split with minutes and seconds below 60 is the one the division chain gives |
| `Readout.DecimalDigitsRoundTrip` | streamdeck-streamtimer/StreamCountdownTimerAction.cs:258 | the decimal digits of n read back as n |
| `Readout.Pad2` | streamdeck-streamtimer/StreamCountdownTimerAction.cs:258 | the format "00" gives at least two decimal digits, exactly two below 100, and no leading zero from 10 on |
| `Readout.Pad2RoundTrip` | streamdeck-streamtimer/StreamCountdownTimerAction.cs:258 | a padded field reads back as the number written |
| `Readout.Delimiter` | streamdeck-streamtimer/StreamCountdownTimerAction.cs:220 | a line break exactly in multi-line layout, a colon exactly otherwise |
| `Readout.Title` | streamdeck-streamtimer/StreamCountdownTimerAction.cs:220-258 | the title ends "mm\nss"; before the minutes is a line break in multi-line layout and a colon otherwise |
| `Readout.TitleRoundTrip` | streamdeck-streamtimer/StreamCountdownTimerAction.cs:252-258 | in either layout, the title's three fields are exactly `Pad2` of the hours, minutes and seconds of `Split(total)`, and they read back as `Split(total)` (so minutes and seconds are below 60 and together give the remaining seconds) |
| `Settings.CreateDefaultSettings` | streamdeck-streamtimer/StreamCountdownTimerAction.cs:25-45 | the defaults: one-minute interval, red alert, black hourglass colour, all modes off, no file output; end text and file clearing are exclusive |
| `Settings.Couple` | streamdeck-streamtimer/StreamCountdownTimerAction.cs:133-145 | a change of clearFileOnReset empties countdownEndText; otherwise a change of countdownEndText turns clearFileOnReset off; otherwise the incoming record is kept as is |
| `Settings.CoupleProperties` | streamdeck-streamtimer/StreamCountdownTimerAction.cs:133-145 | at most one fix-up applies; all other fields come from the update; touching either field makes them exclusive, and exclusivity is preserved |
| `Settings.ParsedDuration` | streamdeck-streamtimer/StreamCountdownTimerAction.cs:323-325 | empty text is no duration; any other text is what the parser makes of it |
| `Settings.IntervalSeconds` | streamdeck-streamtimer/StreamCountdownTimerAction.cs:320-337 | missing or unparsable interval text gives zero; parsed text gives its seconds |
| `Settings.IncrementSeconds` | streamdeck-streamtimer/StreamCountdownTimerAction.cs:308-318 | the increment is zero when streamathon mode is off or the text is missing or unparsable; it is the parsed seconds otherwise |
| `Registry.TimerRegistry.ResetTimer` | streamdeck-streamtimer/StreamCountdownTimerAction.cs:267-274 | a reset restores the full length, keeps running or stopped, and is logged |
| `Registry.TimerRegistry.StartTimer` | streamdeck-streamtimer/StreamCountdownTimerAction.cs:279-286 | a start makes the timer run, keeps the time left, and is logged |
| `Registry.TimerRegistry.StopTimer` | streamdeck-streamtimer/StreamCountdownTimerAction.cs:305 | a stop halts the timer, keeps the time left, and is logged |
| `Registry.TimerRegistry.IncrementTimer` | streamdeck-streamtimer/StreamCountdownTimerAction.cs:181 | an increment adds the seconds only if it reports success, and is logged with its outcome |
| `Controller.LongPressFires` | streamdeck-streamtimer/StreamCountdownTimerAction.cs:291-296 | a long press fires exactly when the key is pressed and more than 1000 ms have passed since the press |
| `Controller.LongPressThreshold` | streamdeck-streamtimer/StreamCountdownTimerAction.cs:296 | holding exactly 1 s does not fire and 1.001 s does; nothing fires after release; once firing, it fires on every later tick while held |
| `Controller.StreamCountdownTimerAction.constructor` | streamdeck-streamtimer/StreamCountdownTimerAction.cs:106-122 | no stored settings gives the defaults and saves them; both durations are parsed; a valid interval resets a timer that is not running; not alerting, stage 0 |
| `Controller.StreamCountdownTimerAction.ReceivedSettings` | streamdeck-streamtimer/StreamCountdownTimerAction.cs:131-150 | the new settings are `Couple(old, incoming)`; durations are re-parsed with the same re-arm rule; the settings are saved; the alert and key state are unchanged |
| `Controller.StreamCountdownTimerAction.KeyPressed` | streamdeck-streamtimer/StreamCountdownTimerAction.cs:154-209 | the press time is always recorded. While alerting, the alert is cancelled with only a reset and a cleared image. In streamathon mode with the timer running, only an increment may be called; an alert shows for a zero increment (no call) or a refused one. Otherwise a running timer is stopped, and a stopped one is reset (unless resume-on-click) and started |
| `Controller.StreamCountdownTimerAction.KeyReleased` | streamdeck-streamtimer/StreamCountdownTimerAction.cs:211-215 | the key is no longer pressed |
| `Controller.StreamCountdownTimerAction.OnTick` | streamdeck-streamtimer/StreamCountdownTimerAction.cs:217-259 | a long press stops then resets. While alerting nothing else happens. Otherwise zero time left starts the alert and stops the timer. Hourglass mode shows the frame plus a one-shot running/paused title. Otherwise the image is cleared and `Title(remaining, multiline)` is shown |
| `Controller.StreamCountdownTimerAction.TmrAlertElapsed` | streamdeck-streamtimer/StreamCountdownTimerAction.cs:368-380 | paints the `StageColor` of the current stage from the alert colour, then sets the stage to `NextStage` |
| `Controller.StreamCountdownTimerAction.Record` | streamdeck-streamtimer/StreamCountdownTimerAction.cs:267-274 | the record passed on reset and start carries the key's id, the interval, file name, prefix, reset-on-start = not resume-on-click, end text and clear flag |
| `Controller.StreamCountdownTimerAction.ResetTimer` | streamdeck-streamtimer/StreamCountdownTimerAction.cs:265-275 | resets the registry with the key's record (interval, file, prefix, reset-on-start = not resume-on-click, end text, clear flag) |
| `Controller.StreamCountdownTimerAction.ResumeTimer` | streamdeck-streamtimer/StreamCountdownTimerAction.cs:277-287 | starts the registry timer with the same record |
| `Controller.StreamCountdownTimerAction.PauseTimer` | streamdeck-streamtimer/StreamCountdownTimerAction.cs:303-306 | stops the registry timer |
| `Controller.StreamCountdownTimerAction.CheckIfResetNeeded` | streamdeck-streamtimer/StreamCountdownTimerAction.cs:289-301 | a stop followed by a reset is made exactly when the key is pressed and held over one second; no call otherwise |
| `Controller.StreamCountdownTimerAction.SetTimerInterval` | streamdeck-streamtimer/StreamCountdownTimerAction.cs:320-337 | the interval is `IntervalSeconds`; a reset is issued exactly when the text parsed and the timer is not running |
| `Controller.StreamCountdownTimerAction.SetStreamathonIncrement` | streamdeck-streamtimer/StreamCountdownTimerAction.cs:308-318 | the increment is `IncrementSeconds` |
| `Controller.StreamCountdownTimerAction.DisplayHourglass` | streamdeck-streamtimer/StreamCountdownTimerAction.cs:403-427 | sends nothing when no time is left; otherwise clears the title and sends the `HourglassFrame` image |

## Left out

- Bitmap drawing (key image generation, brushes, rectangle fills) is not modelled. An alert frame is recorded as its colour, and an hourglass frame as its colour and fill start. The key image height is a constructor parameter.
- HTML colour parsing is not modelled. It is a function parameter of the key.
- Calls to the host (set image, set title, show alert, save settings) are recorded as entries of `outputs`, in order. Their asynchronous completion is not modelled.
- The timer registry's internals (elapsed-time tracking, file mirroring, the records of other keys) are not modelled. It holds this key's record only. Time passing is left to the caller, which may set the record's fields.
- Registry.TimerRegistry.ResetTimer, StartTimer, StopTimer and IncrementTimer: their effects on the record are assumed, not read from the registry's code, which is not part of this model. A reset restores the full length and keeps running or stopped; a start runs and keeps the time left; a stop halts and keeps the time left. The alert-cancel postcondition of `KeyPressed` (the running flag unchanged) rests on these assumptions.
- The flasher's 200 ms scheduling, and its callback running at the same time as the tick or a press, are not modelled. A firing is one more sequential event. The flasher's `Enabled` flag is the field `alertTimerEnabled`.
- JSON conversion and automatic population of settings from the host's payload are not modelled. An update replaces the whole record. Empty stored settings are `None`.
- Duration parsing is a function parameter returning whole seconds. Fractional seconds and negative durations are not represented, so an increment below one second, which the source treats as positive, reads as zero here.
- Logging, the empty global-settings handler and disposal are not modelled.
- Floating point is not modelled. The remaining fraction and the products with it are exact reals here. Double rounding can make the source's truncated fill start differ by one pixel when the product is an exact integer. It can also change a threshold comparison when the fraction is within one rounding error of 0.5 or 0.20.
- Hourglass.HourglassFrame: for a zero interval with time left, the fill start is recorded as unknown. The source divides by zero there, and its cast of infinity to an integer is unspecified.
- The clock has millisecond resolution. The long-press test is `now - start > 1000`.
- The registry's remaining time is a natural number. It is read as a non-negative count of seconds.
