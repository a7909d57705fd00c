/**
 * The watcher singleton: its configuration fields, the type list and the
 * FileSystemWatcher it holds, the registry of items by file name, and the log.
 * Each method updates these fields as the corresponding handler does and is
 * proved against the pure definitions in Config and Dispatch.
 */
module BLL {
  import opened Wrappers
  import opened Bcl
  import opened Config
  import opened Models
  import opened Dispatch

  /** The FileSystemWatcher as far as it is followed here: its path, and whether it is wired and running. */
  datatype Watcher = Watcher(path: Option<string>, handlersRegistered: bool, raisingEvents: bool)

  datatype WatchResult =
    | Refused        // no folder or no types: nothing created
    | PathRejected   // the Path setter threw: a new, idle watcher is left behind
    | Started        // handlers registered and events raised

  /** The log line that closes a read of the settings, given the settings it produced. */
  function SettingsLog(p: Parsed, s: Settings): LogEntry {
    if p.Count() == 6 then
      SettingsRead(s.initialTimerInterval, s.delayedTimerIntervalAddition, s.permittedIntervalBetweenFiles,
                   s.logFileReadyEvents, s.logFSWEvents)
    else SettingsDefaulted
  }

  /** The guard of _Watch: a folder that is not null or white space, and a non-empty type list. */
  predicate CanWatch(folderSource: Option<string>, fileTypes: Option<seq<string>>) {
    !IsNullOrWhiteSpace(folderSource) && fileTypes.Some? && |fileTypes.value| > 0
  }

  class FilesWatcher {
    var initialTimerInterval: int
    var delayedTimerIntervalAddition: int
    var permittedIntervalBetweenFiles: int
    var logFSWEvents: bool
    var logFileReadyEvents: bool
    var fswUseRegex: bool
    var fswRegex: Option<string>

    var filteredFileTypes: Option<seq<string>>
    var watcher: Option<Watcher>

    /** filesEvents: one item per name relative to the watched folder (e.Name), never removed. */
    var filesEvents: map<string, FileChangeItem>
    var log: seq<LogEntry>

    /** The configuration fields as one value. */
    function Current(): Settings
      reads this
    {
      Settings(initialTimerInterval, delayedTimerIntervalAddition, permittedIntervalBetweenFiles,
               logFSWEvents, logFileReadyEvents, fswUseRegex, fswRegex)
    }

    constructor ()
      ensures Current() == Defaults
      ensures filteredFileTypes == None && watcher == None
      ensures filesEvents == map[] && log == []
    {
      initialTimerInterval := 5;
      delayedTimerIntervalAddition := 1;
      permittedIntervalBetweenFiles := 60;
      logFSWEvents := false;
      logFileReadyEvents := false;
      fswUseRegex := false;
      fswRegex := None;
      filteredFileTypes := None;
      watcher := None;
      filesEvents := map[];
      log := [];
    }

    /**
     * Assigns the settings one at a time; the first parse that throws is
     * caught, logged, and leaves that setting and every later one as it was.
     */
    method ReadAllSettings(cfg: map<string, string>)
      modifies this`initialTimerInterval, this`delayedTimerIntervalAddition, this`permittedIntervalBetweenFiles,
               this`logFSWEvents, this`logFileReadyEvents, this`fswUseRegex, this`fswRegex, this`log
      ensures Current() == ReadSettings(old(Current()), ParseAll(cfg))
      ensures log == old(log) + [SettingsLog(ParseAll(cfg), Current())]
    {
      ghost var p := ParseAll(cfg);
      var initial := ParseInt32(Get(cfg, KeyInitialTimerInterval));
      if initial.None? {
        assert p.Count() == 0;
        log := log + [SettingsDefaulted];
        return;
      }
      initialTimerInterval := initial.value;

      var delayed := ParseInt32(Get(cfg, KeyDelayedTimerAddition));
      if delayed.None? {
        assert p.Count() == 1;
        log := log + [SettingsDefaulted];
        return;
      }
      delayedTimerIntervalAddition := delayed.value;

      var permitted := ParseInt32(Get(cfg, KeyPermittedSeconds));
      if permitted.None? {
        assert p.Count() == 2;
        log := log + [SettingsDefaulted];
        return;
      }
      permittedIntervalBetweenFiles := permitted.value;

      var logReady := ParseBool(Get(cfg, KeyLogFileReadyEvents));
      if logReady.None? {
        assert p.Count() == 3;
        log := log + [SettingsDefaulted];
        return;
      }
      logFileReadyEvents := logReady.value;

      var logRaw := ParseBool(Get(cfg, KeyLogFSWEvents));
      if logRaw.None? {
        assert p.Count() == 4;
        log := log + [SettingsDefaulted];
        return;
      }
      logFSWEvents := logRaw.value;

      var useRegex := ParseBool(Get(cfg, KeyUseRegex));
      if useRegex.None? {
        assert p.Count() == 5;
        log := log + [SettingsDefaulted];
        return;
      }
      fswUseRegex := useRegex.value;
      fswRegex := Get(cfg, KeyRegex);

      assert p.Count() == 6;
      log := log + [SettingsRead(initialTimerInterval, delayedTimerIntervalAddition, permittedIntervalBetweenFiles,
                                 logFileReadyEvents, logFSWEvents)];
    }

    /**
     * Watch and _Watch: store the type list, read the settings, and start a
     * watcher on the folder unless the folder or the type list is missing.
     * folderExists is whether the directory exists when the Path setter checks.
     */
    method Watch(folderSource: Option<string>, fileTypes: Option<seq<string>>,
                 cfg: map<string, string>, folderExists: bool) returns (result: WatchResult)
      modifies this
      ensures filteredFileTypes == fileTypes
      ensures Current() == ReadSettings(old(Current()), ParseAll(cfg))
      ensures filesEvents == old(filesEvents)
      ensures result == Refused <==> !CanWatch(folderSource, fileTypes)
      ensures result == PathRejected <==> CanWatch(folderSource, fileTypes) && !folderExists
      ensures result == Refused ==>
        watcher == old(watcher) && log == old(log) + [SettingsLog(ParseAll(cfg), Current()), CannotProceed]
      ensures result == PathRejected ==>
        watcher == Some(Watcher(None, false, false)) && log == old(log) + [SettingsLog(ParseAll(cfg), Current())]
      ensures result == Started ==>
        && watcher == Some(Watcher(folderSource, true, true))
        && log == old(log) + [SettingsLog(ParseAll(cfg), Current()), WatchingFolder(folderSource.value), WatcherReady]
    {
      filteredFileTypes := fileTypes;
      ReadAllSettings(cfg);

      if IsNullOrWhiteSpace(folderSource) || filteredFileTypes.None? || |filteredFileTypes.value| == 0 {
        log := log + [CannotProceed];
        return Refused;
      }

      watcher := Some(Watcher(None, false, false));
      if !folderExists {
        return PathRejected;
      }
      watcher := Some(Watcher(folderSource, false, false));
      log := log + [WatchingFolder(folderSource.value)];
      watcher := Some(Watcher(folderSource, true, true));
      log := log + [WatcherReady];
      result := Started;
    }

    /**
     * The handler for Changed and Created notifications. view supplies the
     * item's State and WaitingForNextFile(eventTime).
     */
    method OnFileChanged(a: Arrival, rx: RegexEngine, view: ItemView)
      returns (outcome: Outcome)
      modifies this`filesEvents, this`log
      ensures var r := Step(Current(), filteredFileTypes, old(filesEvents), a, rx, view);
        outcome == r.outcome && filesEvents == r.registry && log == old(log) + r.logged
    {
      if fswUseRegex && (fswRegex.None? || !rx.valid(fswRegex.value)) {
        return Crashed;
      }
      if fswUseRegex && !rx.isMatch(a.e.name, fswRegex.value) {
        return RegexRejected;
      }
      if a.ext.None? || filteredFileTypes.None? {
        log := log + [HandlerError];
        return Faulted;
      }
      if !AnyTypeEquals(filteredFileTypes.value, a.ext.value) {
        return TypeRejected;
      }

      var eventTime := a.now;
      var fileName := a.e.name;
      if logFSWEvents {
        log := log + [RawEvent(eventTime, a.e.kind, fileName, a.e.fullPath)];
      }

      if fileName in filesEvents {
        var item := filesEvents[fileName];
        if view.stateAt(item, eventTime) == Updating {
          filesEvents := filesEvents[fileName := Apply(item, ResetTimer(a.e, eventTime))];
          outcome := TimerReset;
        } else {
          if !view.waiting(item, eventTime) {
            filesEvents := filesEvents[fileName := Apply(item, UpdateTimeForFileToBeReady(eventTime))];
            outcome := ReadyTimeUpdated;
          } else {
            log := log + [RestartingCount(fileName)];
            filesEvents := filesEvents[fileName := Apply(item, ResetTimer(a.e, eventTime))];
            outcome := Restarted;
          }
        }
      } else {
        var watchItem := NewItem(a.e, initialTimerInterval, permittedIntervalBetweenFiles);
        filesEvents := filesEvents[watchItem.fileName := watchItem];
        outcome := Added;
      }
    }
  }
}
