# FilesWatcher dispatcher — a Dafny model

FilesWatcher watches a directory tree and turns the raw Changed/Created
notifications of a `FileSystemWatcher` into one "file ready" event per file.
Its `FilesWatcher` singleton filters each notification (an optional regular
expression on the file name, then an exact allow-list of extensions), looks the
event's name relative to the watched folder (`e.Name`; subdirectories are watched, so it may
include a folder part) up in a registry of `FileChangeItem`s, and then creates an item,
resets an item's timer, or pushes its ready time out, depending on the item's
state. This project models that dispatcher, the start-up guard of `_Watch`, and
the ordered, abort-on-first-failure reading of the settings.

Layout, one module per file:

- `wrappers.dfy` — `Option`, standing for null references and for calls that throw.
- `bcl.dfy` (`Bcl`) — pure stand-ins for `string.IsNullOrWhiteSpace`, `int.Parse` and
  `bool.Parse` as .NET defines them (a call that throws returns `None`).
- `config.dfy` (`Config`) — the settings record, its defaults, the configuration keys, and
  `ReadSettings`, the effect of one read.
- `models.dfy` (`Models`) — notifications, `FileChangeItem` as the dispatcher sees it, log lines.
- `dispatch.dfy` (`Dispatch`) — `Step`, one call of the change handler as a pure transition
  over the registry; `Run`, a sequence of calls; the lemmas about both.
- `files_watcher.dfy` (`BLL`) — the class `FilesWatcher` with the source's fields, whose methods
  `ReadAllSettings`, `Watch` and `OnFileChanged` update them step by step and are proved against
  `ReadSettings`, `CanWatch` and `Step`.

What is abstract:

- `FileChangeItem`'s own behaviour is not modelled. Its source is not part of this model.
  The dispatcher's calls `ResetTimer` and `UpdateTimeForFileToBeReady` are recorded, in order,
  in the item's `calls`.
- What the handler reads from an existing item, its `State` and `WaitingForNextFile(eventTime)`,
  is supplied by an `ItemView`: two functions of the item and the event's time. The item's own
  timers move it from `Updating` to `Idle` between handler calls; the view is how a run sees that.
- A new item is taken to have `FileName` equal to the event's `Name`.
- `Regex.IsMatch` is a parameter `RegexEngine`: whether a pattern parses, and whether a name
  matches it.
- `new FileInfo(e.FullPath).Extension` is an input: `None` when the constructor throws.
- `DateTime.Now` is an input, and so is whether the folder exists when the watcher's `Path`
  is set.

Behaviour of the code worth noting:

- The regex gate and the extension filter both apply when regex mode is on. The regex is not
  an alternative to the extension list.
- A missing or malformed setting does not fall back alone. The first parse that throws
  abandons every later setting too, even well-formed ones; the earlier ones keep their new values.
- The regex test (`FilesWatcher.cs:114`) is outside the `try` block. In regex mode a null
  pattern (a missing `FSW:FSWRegex` key) or a malformed one makes every notification throw out
  of the handler. An unhandled exception on a thread-pool thread ends a .NET process, so
  `Run` stops at such a step (outcome `Crashed`).
- If `Watch` is called again with a null type list after an earlier successful call, the old
  watcher keeps firing and `Any` on the null list throws inside the `try`. The event is logged
  and dropped (outcome `Faulted`).

## Model

| member | source | states |
|---|---|---|
| `Dispatch.Step` | FilesWatcherService/BLL/FilesWatcher.cs:112-168 | one handler call adds at most the event's own name to the registry (exactly when it adds an item); every other entry is unchanged; an event that is not accepted leaves the registry unchanged |
| `Dispatch.AnyTypeEquals` | FilesWatcherService/BLL/FilesWatcher.cs:123 | the extension passes if and only if some configured type equals it exactly |
| `Dispatch.RegexGateThrowsChangesNothing` | FilesWatcherService/BLL/FilesWatcher.cs:114 | the handler throws out of its body exactly when regex mode is on and the pattern is null or malformed; then nothing changes and nothing is logged |
| `Dispatch.RegexMismatchDropsEvent` | FilesWatcherService/BLL/FilesWatcher.cs:114-115 | regex mode on and a name that does not match: the event is dropped silently and the registry and every item are unchanged |
| `Dispatch.TypeFilterDecides` | FilesWatcherService/BLL/FilesWatcher.cs:117-123 | past the regex gate, the event reaches the registry if and only if some configured type equals the extension; a null type list or a throwing path inspection is caught, logged, and changes nothing; a rejected type changes nothing |
| `Dispatch.FirstEventAddsItem` | FilesWatcherService/BLL/FilesWatcher.cs:153-161 | the first accepted event for an unseen name adds exactly one entry, under that name: an item with the event's name and full path, the current initial interval and permitted interval, and no calls yet; nothing else changes |
| `Dispatch.StepKeepsKeyedByFileName` | FilesWatcherService/BLL/FilesWatcher.cs:131-160 | an item is added under its own `FileName` and looked up under `e.Name`; one handler call keeps every item stored under its own `FileName` |
| `Dispatch.RunKeepsKeyedByFileName` | FilesWatcherService/BLL/FilesWatcher.cs:126-161 | any sequence of handler calls keeps every item stored under its own `FileName`, so a later event for a name finds the item the first one created |
| `Dispatch.UpdatingItemResetsTimer` | FilesWatcherService/BLL/FilesWatcher.cs:131-137 | an accepted event for an item whose state at the event's time is `Updating` applies `ResetTimer` to that item only; every other field of the item is unchanged and no entry is added |
| `Dispatch.IdleItemDispatch` | FilesWatcherService/BLL/FilesWatcher.cs:139-151 | for an item whose state at the event's time is `Idle`, exactly one of two things happens: not waiting, `UpdateTimeForFileToBeReady`; waiting, a "restarting count" line and `ResetTimer` |
| `Dispatch.RunKeys` | FilesWatcherService/BLL/FilesWatcher.cs:126-161 | after any sequence of events the registry's names are the earlier names plus the names (`e.Name`) of the accepted events: no path removes an entry |
| `Dispatch.RunKeepsEveryName` | FilesWatcherService/BLL/FilesWatcher.cs:66 | the registry's key set only grows |
| `Dispatch.SameNameSharesEntry` | FilesWatcherService/BLL/FilesWatcher.cs:126-161 | two accepted events with one name relative to the watched folder share one entry: the first creates it, and the second, arriving while the new item is still `Updating`, resets its timer |
| `Dispatch.SameNameAfterReady` | FilesWatcherService/BLL/FilesWatcher.cs:126-161 | the same two events when the new item is `Idle` by the time the second arrives: one entry, on which the second applies `UpdateTimeForFileToBeReady`, or `ResetTimer` when the item is waiting for a next file |
| `Dispatch.Run` | FilesWatcherService/BLL/FilesWatcher.cs:112-168 | the handler applied to each notification in turn, stopping at the first exception that escapes it (`Crashed`); with regex mode on and a null or malformed pattern the registry is left exactly as it was, and a run of events none of which is accepted changes nothing |
| `Dispatch.RunOneNameIsLocal` | FilesWatcherService/BLL/FilesWatcher.cs:131-161 | events for one name read only that name's entry: registries that agree on it before agree on it after (the write half is `RunIndependentAcrossNames`) |
| `Dispatch.RunIndependentAcrossNames` | FilesWatcherService/BLL/FilesWatcher.cs:131-161 | the entry of a name after a run equals what that name's events alone make of it; events for other names have no effect on it |
| `BLL.FilesWatcher.OnFileChanged` | FilesWatcherService/BLL/FilesWatcher.cs:112-168 | the handler's new registry, log and outcome are those of `Step` on the current settings and type list and the supplied item view; the settings are not touched |
| `Bcl.IsNullOrWhiteSpace` | FilesWatcherService/BLL/FilesWatcher.cs:80 | true exactly for null or a string whose every character is white space |
| `BLL.FilesWatcher.Watch` | FilesWatcherService/BLL/FilesWatcher.cs:68-110 | stores the type list and reads the settings; refuses, leaving the watcher as it was, exactly when the folder is null or white space or the type list is null or empty; otherwise starts a watcher on the folder with handlers registered, unless setting the path throws |
| `Bcl.ParseInt32` | FilesWatcherService/BLL/FilesWatcher.cs:186-188 | a parsed value always lies in the Int32 range; null never parses |
| `Bcl.ParseFormatRoundTrip` | FilesWatcherService/BLL/FilesWatcher.cs:186-188 | every Int32 written in decimal is read back as itself |
| `Bcl.ParseBool` | FilesWatcherService/BLL/FilesWatcher.cs:189-191 | null never parses; a text parses to true (false) exactly when, trimmed of white space and NULs at both ends, it reads "True" ("False") in any ASCII case |
| `Bcl.ParseBoolPadded` | FilesWatcherService/BLL/FilesWatcher.cs:189-191 | "True"/"False" in any ASCII case, with any surrounding white space and NULs, parse to true/false |
| `Config.ReadSettings` | FilesWatcherService/BLL/FilesWatcher.cs:182-200 | the settings before the first parse failure take their new values, that one and every later one keep their prior values; the pattern is read only when all six parses succeed |
| `Config.ReadSettingsWithoutFirstKey` | FilesWatcherService/BLL/FilesWatcher.cs:16-24 | a configuration without the first key changes nothing, so on the first read every default (5, 1, 60, false, false, false, null) survives |
| `Config.ReadSettingsIdempotent` | FilesWatcherService/BLL/FilesWatcher.cs:182-200 | reading the same configuration twice gives the settings one read gives |
| `Config.ReadSettingsComplete` | FilesWatcherService/BLL/FilesWatcher.cs:186-192 | when every parse succeeds the result does not depend on the prior settings |
| `BLL.FilesWatcher.ReadAllSettings` | FilesWatcherService/BLL/FilesWatcher.cs:182-200 | assigning the fields one at a time and stopping at the first failure yields `ReadSettings` of the prior fields; on success the two summary lines are recorded as one log entry, on failure one error entry |
| `BLL.FilesWatcher.constructor` | FilesWatcherService/BLL/FilesWatcher.cs:16-24 | the settings start at their defaults; no types, no watcher, an empty registry |

## Left out

- Construction and configuration of the `FileSystemWatcher` (buffer size, notify filter, filter, subdirectories): only its path and whether handlers are registered and events raised are kept. It is the operating system's notification source.
- `FileChangeItem` (timers, intervals, `WaitingForNextFile`, raising "ready"): not part of this model. Its calls are recorded, not executed. Its `State` and `WaitingForNextFile` are read through an `ItemView` that any function of the item and the time may fill, so every lemma holds whatever the timers do; the model does not tie the view to the recorded calls (for example, that `ResetTimer` puts an item back in `Updating`).
- `Dispatch.FirstEventAddsItem`: does not state the new item's starting state (`Updating`), because an item's state is read only through the `ItemView`, which stands for `FileChangeItem`'s own timers.
- Concurrency: the `ConcurrentDictionary` and the non-atomic `TryGetValue`/`TryAdd` pair are modelled as one sequential step per notification.
- `Regex.IsMatch`, `FileInfo.Extension`, `DateTime.Now`, directory existence: inputs or abstract parameters, as listed above.
- Event fan-out (`WatchItem_OnNewMessage`, `WatchItem_OnFileReady`, `OnFileReady`, `OnNewMessage`): delegate invocation is not modelled; log lines are recorded in the `log` field without their text or level.
- The Windows service host, the webhook POST, the process entry point and the Serilog setup: hosting and network I/O.
- `Bcl.ParseInt32`: culture-specific sign symbols are not modelled; the invariant culture's '+' and '-' are.
- `Config.Get`: `cfg` stands for the configuration as looked up, and `Get` is a plain exact-match map lookup. Microsoft.Extensions.Configuration matches keys case-insensitively, which is not modelled, and neither is the exception path of `ConfigValueProvider.Get` (which returns the empty string).
- The static fields and the singleton instance are modelled as the fields of one `FilesWatcher` object.
