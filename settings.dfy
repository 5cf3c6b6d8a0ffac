/**
 * The widget's persisted configuration, its defaults, the coupling rule
 * between "clear file on reset" and "countdown end text" applied on every
 * settings update, and the derivation of the two durations (interval and
 * streamathon increment) from their text form.
 *
 * Duration text is parsed by the platform's TimeSpan parser, which is not part
 * of this model: it is passed in as a function from text to whole seconds that
 * answers None when the text does not parse.
 */
module Settings {
  import opened Basics

  /** The configuration record; field names are the persisted (JSON) names. */
  datatype PluginSettings = PluginSettings(
    resumeOnClick: bool,
    multiline: bool,
    timerInterval: string,
    timerFileName: string,
    filePrefix: string,
    alertColor: string,
    hourglassMode: bool,
    hourglassColor: string,
    countdownEndText: string,
    clearFileOnReset: bool,
    streamathonMode: bool,
    streamathonIncrement: string)

  /**
   * End text and clearing the file on reset are alternatives: the file is
   * either cleared or given the end text, not both.
   */
  predicate EndTextExclusive(s: PluginSettings) {
    s.clearFileOnReset ==> s.countdownEndText == ""
  }

  /**
   * The settings a new key starts with: a one-minute countdown in plain
   * digit mode that restarts from the full interval on click, red alert,
   * automatic hourglass colours, and no file output.
   */
  function CreateDefaultSettings(): (s: PluginSettings)
    ensures !s.resumeOnClick && !s.multiline && !s.hourglassMode && !s.streamathonMode
    ensures s.timerInterval == "00:01:00" && s.alertColor == "#FF0000" && s.hourglassColor == "#000000"
    ensures s.timerFileName == "" && s.filePrefix == "" && s.streamathonIncrement == ""
    ensures !s.clearFileOnReset && s.countdownEndText == ""
    ensures EndTextExclusive(s)
  {
    PluginSettings(
      resumeOnClick := false,
      multiline := false,
      timerInterval := "00:01:00",
      timerFileName := "",
      filePrefix := "",
      alertColor := "#FF0000",
      hourglassMode := false,
      hourglassColor := "#000000",
      countdownEndText := "",
      clearFileOnReset := false,
      streamathonMode := false,
      streamathonIncrement := "")
  }

  /**
   * The settings after an update: the incoming record, except that the field
   * of the pair (clearFileOnReset, countdownEndText) the user touched last
   * wins. A change of clearFileOnReset is looked at first.
   */
  function Couple(previous: PluginSettings, incoming: PluginSettings): (s: PluginSettings)
    ensures previous.clearFileOnReset != incoming.clearFileOnReset ==>
              s == incoming.(countdownEndText := "")
    ensures previous.clearFileOnReset == incoming.clearFileOnReset && previous.countdownEndText != incoming.countdownEndText ==>
              s == incoming.(clearFileOnReset := false)
    ensures previous.clearFileOnReset == incoming.clearFileOnReset && previous.countdownEndText == incoming.countdownEndText ==>
              s == incoming
  {
    if previous.clearFileOnReset != incoming.clearFileOnReset then
      incoming.(countdownEndText := "")
    else if previous.countdownEndText != incoming.countdownEndText then
      incoming.(clearFileOnReset := false)
    else
      incoming
  }

  /**
   * At most one of the two fix-ups applies, everything else comes from the
   * incoming record, and once either field of the pair was touched the
   * result keeps them exclusive; otherwise exclusivity carries over.
   */
  lemma CoupleProperties(previous: PluginSettings, incoming: PluginSettings)
    ensures var s := Couple(previous, incoming);
      s.clearFileOnReset == incoming.clearFileOnReset || s.countdownEndText == incoming.countdownEndText
    ensures var s := Couple(previous, incoming);
      s.(clearFileOnReset := incoming.clearFileOnReset, countdownEndText := incoming.countdownEndText) == incoming
    ensures previous.clearFileOnReset != incoming.clearFileOnReset || previous.countdownEndText != incoming.countdownEndText ==>
      EndTextExclusive(Couple(previous, incoming))
    ensures EndTextExclusive(previous) ==> EndTextExclusive(Couple(previous, incoming))
  {
  }

  /** A duration text: missing (empty) text is no duration, otherwise whatever the parser makes of it. */
  function ParsedDuration(raw: string, tryParse: string -> Option<nat>): (d: Option<nat>)
    ensures raw == "" ==> d == None
    ensures raw != "" ==> d == tryParse(raw)
  {
    if raw == "" then None else tryParse(raw)
  }

  /** Seconds of the countdown interval: zero when the text is missing or does not parse. */
  function IntervalSeconds(s: PluginSettings, tryParse: string -> Option<nat>): (secs: nat)
    ensures secs > 0 ==> ParsedDuration(s.timerInterval, tryParse) == Some(secs)
    ensures ParsedDuration(s.timerInterval, tryParse) == None ==> secs == 0
    ensures ParsedDuration(s.timerInterval, tryParse).Some? ==> secs == ParsedDuration(s.timerInterval, tryParse).value
  {
    match ParsedDuration(s.timerInterval, tryParse)
    case None => 0
    case Some(d) => d
  }

  /**
   * Seconds a streamathon key press adds: zero unless streamathon mode is on
   * and the increment text is present and parses.
   */
  function IncrementSeconds(s: PluginSettings, tryParse: string -> Option<nat>): (secs: nat)
    ensures secs > 0 ==> s.streamathonMode && ParsedDuration(s.streamathonIncrement, tryParse) == Some(secs)
    ensures !s.streamathonMode || ParsedDuration(s.streamathonIncrement, tryParse) == None ==> secs == 0
    ensures s.streamathonMode && ParsedDuration(s.streamathonIncrement, tryParse).Some? ==>
              secs == ParsedDuration(s.streamathonIncrement, tryParse).value
  {
    if !s.streamathonMode then 0
    else match ParsedDuration(s.streamathonIncrement, tryParse)
      case None => 0
      case Some(d) => d
  }
}
