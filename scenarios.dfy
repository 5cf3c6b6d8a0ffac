/**
 * End-to-end runs of one key, proved from the contracts alone: the countdown
 * reaching zero, the flash cycle, cancelling the alert, and a streamathon
 * press.
 */
module Scenarios {
  import opened Basics
  import opened Colors
  import opened AlertFlash
  import opened Settings
  import opened Registry
  import opened Controller

  /**
   * With time run out and no alert yet, a tick enters alerting and stops the
   * timer; the first flash shows the configured alert colour, four flashes
   * bring the stage back to 0, and a press cancels the alert and resets.
   */
  method ExpiryFlashAndCancel(parse: string -> Option<nat>, html: string -> Rgba)
  {
    var reg := new TimerRegistry();
    var key := new StreamCountdownTimerAction("key", reg, None, parse, html, 72);
    reg.enabled, reg.remaining := true, 0;
    key.OnTick(1000);
    assert key.isAlerting && !reg.enabled;
    assert reg.log[|reg.log| - 1] == Stop("key");

    var alertColor := html(CreateDefaultSettings().alertColor);
    StageColorCycle(alertColor);
    key.TmrAlertElapsed();
    assert key.outputs[|key.outputs| - 1] == AlertImage(alertColor);
    key.TmrAlertElapsed();
    key.TmrAlertElapsed();
    key.TmrAlertElapsed();
    assert key.outputs[|key.outputs| - 1] == AlertImage(StageColor(alertColor, 1, TOTAL_ALERT_STAGES));
    assert key.alertStage == 0;

    key.OnTick(2000);
    assert key.isAlerting;
    key.KeyPressed(2500);
    assert !key.isAlerting && !key.alertTimerEnabled;
    assert reg.log[|reg.log| - 1] == Reset(key.Record());
    assert key.outputs[|key.outputs| - 1] == ImageCleared;
  }

  /**
   * A running streamathon key with a five-minute increment asks the
   * registry for 300 more seconds; an alert shows only if the registry
   * refuses.
   */
  method StreamathonPress(parse: string -> Option<nat>, html: string -> Rgba)
    requires parse("00:05:00") == Some(300)
  {
    var stored := CreateDefaultSettings().(streamathonMode := true, streamathonIncrement := "00:05:00");
    var reg := new TimerRegistry();
    var key := new StreamCountdownTimerAction("key", reg, Some(stored), parse, html, 72);
    assert key.streamathonIncrement == 300;
    reg.enabled, reg.remaining := true, 42;
    var before := key.outputs;
    key.KeyPressed(0);
    var call := reg.log[|reg.log| - 1];
    assert call.Increment? && call.seconds == 300;
    assert call.succeeded ==> reg.remaining == 342 && key.outputs == before;
    assert !call.succeeded ==> reg.remaining == 42 && key.outputs == before + [AlertShown];
  }

  /** Holding the key for 1.001 s stops and resets on that tick; releasing before that does nothing. */
  method LongPressReset(parse: string -> Option<nat>, html: string -> Rgba)
    requires parse("00:01:00") == Some(60)
  {
    var reg := new TimerRegistry();
    var key := new StreamCountdownTimerAction("key", reg, None, parse, html, 72);
    key.KeyPressed(10000);
    assert reg.remaining == 60;
    assert reg.enabled;
    var logged := reg.log;
    key.OnTick(11000);
    assert reg.log == logged && reg.enabled;
    key.OnTick(11001);
    assert reg.log[|logged|..|logged| + 2] == [Stop("key"), Reset(key.Record())];
    key.KeyReleased();
    logged := reg.log;
    key.OnTick(20000);
    assert reg.log[..|logged|] == logged && reg.log[|logged|..] == (if reg.remaining == 0 then [Stop("key")] else []);
  }
}
