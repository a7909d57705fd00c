/**
 * The watcher's tunable settings, the configuration keys they are read from,
 * and the effect of reading them in their fixed order.
 */
module Config {
  import opened Wrappers
  import opened Bcl

  /** The static configuration fields of the watcher. fswRegex None is the null pattern. */
  datatype Settings = Settings(
    initialTimerInterval: int,
    delayedTimerIntervalAddition: int,
    permittedIntervalBetweenFiles: int,
    logFSWEvents: bool,
    logFileReadyEvents: bool,
    fswUseRegex: bool,
    fswRegex: Option<string>)

  /** The values the fields hold before any read. */
  const Defaults := Settings(5, 1, 60, false, false, false, None)

  const KeyInitialTimerInterval := "FSW:initialTimerInterval"
  const KeyDelayedTimerAddition := "FSW:delayedTimerAddition"
  const KeyPermittedSeconds := "FSW:permittedSecondsBetweenReadyEvents"
  const KeyLogFileReadyEvents := "FSW:LogFileReadyEvents"
  const KeyLogFSWEvents := "FSW:LogFSWEvents"
  const KeyUseRegex := "FSW:FSWUseRegex"
  const KeyRegex := "FSW:FSWRegex"

  /** The configuration source: a missing key reads as null. */
  function Get(cfg: map<string, string>, name: string): (r: Option<string>)
    ensures r.Some? <==> name in cfg
    ensures r.Some? ==> r.value == cfg[name]
  {
    if name in cfg then Some(cfg[name]) else None
  }

  /**
   * The result of each parse the read performs, in the source's order; None
   * where the parse throws. The pattern is copied as read and never throws.
   */
  datatype Parsed = Parsed(
    initialTimerInterval: Option<int>,
    delayedTimerIntervalAddition: Option<int>,
    permittedIntervalBetweenFiles: Option<int>,
    logFileReadyEvents: Option<bool>,
    logFSWEvents: Option<bool>,
    fswUseRegex: Option<bool>,
    fswRegex: Option<string>)
  {
    /** How many of the six parses succeed before the first that throws (6 when none does). */
    function Count(): (n: nat)
      ensures n <= 6
    {
      if initialTimerInterval.None? then 0
      else if delayedTimerIntervalAddition.None? then 1
      else if permittedIntervalBetweenFiles.None? then 2
      else if logFileReadyEvents.None? then 3
      else if logFSWEvents.None? then 4
      else if fswUseRegex.None? then 5
      else 6
    }
  }

  /** Every parse the read performs, on the values the configuration holds. */
  function ParseAll(cfg: map<string, string>): Parsed {
    Parsed(
      ParseInt32(Get(cfg, KeyInitialTimerInterval)),
      ParseInt32(Get(cfg, KeyDelayedTimerAddition)),
      ParseInt32(Get(cfg, KeyPermittedSeconds)),
      ParseBool(Get(cfg, KeyLogFileReadyEvents)),
      ParseBool(Get(cfg, KeyLogFSWEvents)),
      ParseBool(Get(cfg, KeyUseRegex)),
      Get(cfg, KeyRegex))
  }

  /**
   * The settings after one read: assignments in the source's order, the first
   * parse that throws abandoning the rest.
   */
  function ReadSettings(prev: Settings, p: Parsed): (r: Settings)
    ensures r.initialTimerInterval ==
      if p.Count() > 0 then p.initialTimerInterval.value else prev.initialTimerInterval
    ensures r.delayedTimerIntervalAddition ==
      if p.Count() > 1 then p.delayedTimerIntervalAddition.value else prev.delayedTimerIntervalAddition
    ensures r.permittedIntervalBetweenFiles ==
      if p.Count() > 2 then p.permittedIntervalBetweenFiles.value else prev.permittedIntervalBetweenFiles
    ensures r.logFileReadyEvents ==
      if p.Count() > 3 then p.logFileReadyEvents.value else prev.logFileReadyEvents
    ensures r.logFSWEvents ==
      if p.Count() > 4 then p.logFSWEvents.value else prev.logFSWEvents
    ensures r.fswUseRegex ==
      if p.Count() > 5 then p.fswUseRegex.value else prev.fswUseRegex
    ensures r.fswRegex == if p.Count() == 6 then p.fswRegex else prev.fswRegex
  {
    match p.initialTimerInterval
    case None => prev
    case Some(initial) =>
      var s1 := prev.(initialTimerInterval := initial);
      match p.delayedTimerIntervalAddition
      case None => s1
      case Some(delayed) =>
        var s2 := s1.(delayedTimerIntervalAddition := delayed);
        match p.permittedIntervalBetweenFiles
        case None => s2
        case Some(permitted) =>
          var s3 := s2.(permittedIntervalBetweenFiles := permitted);
          match p.logFileReadyEvents
          case None => s3
          case Some(logReady) =>
            var s4 := s3.(logFileReadyEvents := logReady);
            match p.logFSWEvents
            case None => s4
            case Some(logRaw) =>
              var s5 := s4.(logFSWEvents := logRaw);
              match p.fswUseRegex
              case None => s5
              case Some(useRegex) =>
                s5.(fswUseRegex := useRegex, fswRegex := p.fswRegex)
  }

  /** A configuration without the first key changes nothing: on the first read every default survives. */
  lemma ReadSettingsWithoutFirstKey(prev: Settings, cfg: map<string, string>)
    requires KeyInitialTimerInterval !in cfg
    ensures ReadSettings(prev, ParseAll(cfg)) == prev
  {
  }

  /** Reading the same configuration twice leaves the settings as one read does. */
  lemma ReadSettingsIdempotent(prev: Settings, p: Parsed)
    ensures ReadSettings(ReadSettings(prev, p), p) == ReadSettings(prev, p)
  {
  }

  /** When every parse succeeds, the result does not depend on the settings before. */
  lemma ReadSettingsComplete(prev: Settings, other: Settings, p: Parsed)
    requires p.Count() == 6
    ensures ReadSettings(prev, p) == ReadSettings(other, p)
  {
  }
}
