/**
 * The values the watcher works with: a raw change notification, the per-file
 * item held in the registry, and the messages it logs.
 */
module Models {

  datatype ChangeKind = Created | Changed

  /**
   * A FileSystemEventArgs: what changed, its full path, and its name relative to
   * the watched folder (the watcher includes subdirectories, so a name may hold
   * a folder part).
   */
  datatype FileEvent = FileEvent(kind: ChangeKind, fullPath: string, name: string)

  datatype WatchItemState = Updating | Idle

  /**
   * An operation the dispatcher applies to an item. What the item does in
   * response (timers, intervals, raising "ready") belongs to the item and is
   * not modelled; the call and its arguments are recorded.
   */
  datatype ItemCall =
    | ResetTimer(e: FileEvent, at: int)
    | UpdateTimeForFileToBeReady(at: int)

  /**
   * A FileChangeItem as the dispatcher sees it. calls lists, oldest first,
   * the operations the dispatcher has applied to it since it was created.
   */
  datatype FileChangeItem = FileChangeItem(
    fileName: string,
    fullPath: string,
    timerInterval: int,
    permittedIntervalBetweenFiles: int,
    calls: seq<ItemCall>)

  /**
   * What the dispatcher reads from an item when an event arrives at a given
   * time: its State, and WaitingForNextFile(eventTime). Both are decided by the
   * item's own timers, which run between handler calls, so they are
   * observations supplied from outside rather than fields the dispatcher keeps.
   */
  datatype ItemView = ItemView(stateAt: (FileChangeItem, int) -> WatchItemState,
                               waiting: (FileChangeItem, int) -> bool)

  /** The item created for the first accepted event of a name. */
  function NewItem(e: FileEvent, interval: int, permitted: int): (item: FileChangeItem)
    ensures item.fileName == e.name && item.fullPath == e.fullPath
    ensures item.calls == []
    ensures item.timerInterval == interval && item.permittedIntervalBetweenFiles == permitted
  {
    FileChangeItem(e.name, e.fullPath, interval, permitted, [])
  }

  /** Applying an operation records it and changes nothing the dispatcher can see. */
  function Apply(item: FileChangeItem, call: ItemCall): (r: FileChangeItem)
    ensures r.calls == item.calls + [call]
    ensures r.(calls := item.calls) == item
  {
    item.(calls := item.calls + [call])
  }

  /** What the watcher writes to its log. */
  datatype LogEntry =
    | RawEvent(at: int, kind: ChangeKind, name: string, fullPath: string)
    | RestartingCount(name: string)
    | HandlerError
    | SettingsRead(initialTimerInterval: int, delayedTimerIntervalAddition: int,
                   permittedIntervalBetweenFiles: int, logFileReadyEvents: bool, logFSWEvents: bool)
    | SettingsDefaulted
    | CannotProceed
    | WatchingFolder(path: string)
    | WatcherReady
}
