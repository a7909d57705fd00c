/**
 * The per-name event dispatcher as a pure transition: one raw change
 * notification, the settings and the type list in force, and the registry of
 * items keyed by the event's name relative to the watched folder (e.Name), give an outcome, a new registry and the log
 * lines written. Run folds it over a sequence of notifications.
 */
module Dispatch {
  import opened Wrappers
  import opened Config
  import opened Models

  /** Regex.IsMatch left abstract: whether a pattern parses, and whether a name matches it. */
  datatype RegexEngine = RegexEngine(valid: string -> bool, isMatch: (string, string) -> bool)

  /**
   * One notification as the handler meets it: the event, the extension that
   * FileInfo reports for its full path (None when constructing the FileInfo
   * throws), and the time DateTime.Now reads.
   */
  datatype Arrival = Arrival(e: FileEvent, ext: Option<string>, now: int)

  datatype Outcome =
    | Crashed         // Regex.IsMatch threw outside the try block
    | RegexRejected   // regex mode on and the name does not match
    | Faulted         // an exception inside the try block, caught and logged
    | TypeRejected    // no configured type equals the extension
    | Added           // first accepted event for the name: a new item
    | TimerReset      // the item was Updating: ResetTimer
    | ReadyTimeUpdated  // the item was Idle and not waiting: UpdateTimeForFileToBeReady
    | Restarted       // the item was Idle and waiting: "restarting count", ResetTimer

  datatype StepResult = StepResult(outcome: Outcome, registry: map<string, FileChangeItem>, logged: seq<LogEntry>)

  /** The extension test: some configured type equals the extension, ordinally and case-sensitively. */
  function AnyTypeEquals(types: seq<string>, ext: string): (r: bool)
    ensures r <==> exists i :: 0 <= i < |types| && types[i] == ext
  {
    |types| > 0 && (ext == types[0] || AnyTypeEquals(types[1..], ext))
  }

  /** With regex mode on, a null or malformed pattern makes Regex.IsMatch throw. */
  predicate RegexGateThrows(s: Settings, rx: RegexEngine) {
    s.fswUseRegex && (s.fswRegex.None? || !rx.valid(s.fswRegex.value))
  }

  /** The event reaches the registry: it passes the regex gate and the type filter without an exception. */
  predicate Accepted(s: Settings, types: Option<seq<string>>, a: Arrival, rx: RegexEngine) {
    && !RegexGateThrows(s, rx)
    && (s.fswUseRegex ==> rx.isMatch(a.e.name, s.fswRegex.value))
    && a.ext.Some?
    && types.Some?
    && AnyTypeEquals(types.value, a.ext.value)
  }

  /** The raw-event line written for an accepted event when raw logging is on. */
  function RawLog(s: Settings, a: Arrival): seq<LogEntry> {
    if s.logFSWEvents then [RawEvent(a.now, a.e.kind, a.e.name, a.e.fullPath)] else []
  }

  /**
   * One call of the change handler. view supplies what the handler reads from
   * an existing item at the event's time: its State and WaitingForNextFile.
   */
  function Step(s: Settings, types: Option<seq<string>>, reg: map<string, FileChangeItem>,
                a: Arrival, rx: RegexEngine, view: ItemView): (r: StepResult)
    ensures r.registry.Keys == if r.outcome == Added then reg.Keys + {a.e.name} else reg.Keys
    ensures forall k :: k in reg && k != a.e.name ==> r.registry[k] == reg[k]
    ensures !Accepted(s, types, a, rx) ==> r.registry == reg
  {
    if RegexGateThrows(s, rx) then StepResult(Crashed, reg, [])
    else if s.fswUseRegex && !rx.isMatch(a.e.name, s.fswRegex.value) then StepResult(RegexRejected, reg, [])
    else if a.ext.None? || types.None? then StepResult(Faulted, reg, [HandlerError])
    else if !AnyTypeEquals(types.value, a.ext.value) then StepResult(TypeRejected, reg, [])
    else
      var fileName := a.e.name;
      if fileName in reg then
        var item := reg[fileName];
        match view.stateAt(item, a.now)
        case Updating =>
          StepResult(TimerReset, reg[fileName := Apply(item, ResetTimer(a.e, a.now))], RawLog(s, a))
        case Idle =>
          if !view.waiting(item, a.now) then
            StepResult(ReadyTimeUpdated, reg[fileName := Apply(item, UpdateTimeForFileToBeReady(a.now))], RawLog(s, a))
          else
            StepResult(Restarted, reg[fileName := Apply(item, ResetTimer(a.e, a.now))],
                       RawLog(s, a) + [RestartingCount(fileName)])
      else
        var item := NewItem(a.e, s.initialTimerInterval, s.permittedIntervalBetweenFiles);
        StepResult(Added, reg[item.fileName := item], RawLog(s, a))
  }

  // ---------------------------------------------------------------------------
  // One event
  // ---------------------------------------------------------------------------

  /** A null or malformed pattern in regex mode: the exception escapes and nothing changes. */
  lemma RegexGateThrowsChangesNothing(s: Settings, types: Option<seq<string>>, reg: map<string, FileChangeItem>,
                                      a: Arrival, rx: RegexEngine, view: ItemView)
    ensures Step(s, types, reg, a, rx, view).outcome == Crashed <==> RegexGateThrows(s, rx)
    ensures RegexGateThrows(s, rx) ==> Step(s, types, reg, a, rx, view) == StepResult(Crashed, reg, [])
  {
  }

  /** Regex mode on and a name that does not match: the event is dropped, silently, and nothing changes. */
  lemma RegexMismatchDropsEvent(s: Settings, types: Option<seq<string>>, reg: map<string, FileChangeItem>,
                                a: Arrival, rx: RegexEngine, view: ItemView)
    requires s.fswUseRegex && s.fswRegex.Some? && rx.valid(s.fswRegex.value)
    requires !rx.isMatch(a.e.name, s.fswRegex.value)
    ensures Step(s, types, reg, a, rx, view) == StepResult(RegexRejected, reg, [])
  {
  }

  /**
   * Past the regex gate, the event reaches the registry exactly when some
   * configured type equals the extension; a rejected event, or one whose path
   * inspection throws, leaves the registry as it was.
   */
  lemma TypeFilterDecides(s: Settings, types: Option<seq<string>>, reg: map<string, FileChangeItem>,
                          a: Arrival, rx: RegexEngine, view: ItemView)
    requires !RegexGateThrows(s, rx)
    requires s.fswUseRegex ==> rx.isMatch(a.e.name, s.fswRegex.value)
    ensures var r := Step(s, types, reg, a, rx, view);
      && (r.outcome == Faulted <==> a.ext.None? || types.None?)
      && (r.outcome == Faulted ==> r.registry == reg && r.logged == [HandlerError])
      && (r.outcome == TypeRejected ==> r.registry == reg && r.logged == [])
      && (r.outcome !in {Faulted, TypeRejected} <==>
            a.ext.Some? && types.Some? && exists i :: 0 <= i < |types.value| && types.value[i] == a.ext.value)
  {
  }

  /** The first accepted event for a name adds exactly one item, built from the current settings. */
  lemma FirstEventAddsItem(s: Settings, types: Option<seq<string>>, reg: map<string, FileChangeItem>,
                           a: Arrival, rx: RegexEngine, view: ItemView)
    requires Accepted(s, types, a, rx)
    requires a.e.name !in reg
    ensures var r := Step(s, types, reg, a, rx, view);
      && r.outcome == Added
      && r.registry == reg[a.e.name := NewItem(a.e, s.initialTimerInterval, s.permittedIntervalBetweenFiles)]
      && |r.registry| == |reg| + 1
      && r.registry[a.e.name].fileName == a.e.name
      && r.registry[a.e.name].fullPath == a.e.fullPath
      && r.registry[a.e.name].timerInterval == s.initialTimerInterval
      && r.registry[a.e.name].permittedIntervalBetweenFiles == s.permittedIntervalBetweenFiles
      && r.registry[a.e.name].calls == []
      && r.logged == RawLog(s, a)
  {
  }

  /** An accepted event for an Updating item resets its timer and nothing else. */
  lemma UpdatingItemResetsTimer(s: Settings, types: Option<seq<string>>, reg: map<string, FileChangeItem>,
                                a: Arrival, rx: RegexEngine, view: ItemView)
    requires Accepted(s, types, a, rx)
    requires a.e.name in reg && view.stateAt(reg[a.e.name], a.now) == Updating
    ensures var r := Step(s, types, reg, a, rx, view);
      && r.outcome == TimerReset
      && r.registry == reg[a.e.name := Apply(reg[a.e.name], ResetTimer(a.e, a.now))]
      && r.registry.Keys == reg.Keys
      && r.registry[a.e.name].(calls := reg[a.e.name].calls) == reg[a.e.name]
      && r.logged == RawLog(s, a)
  {
  }

  /**
   * An accepted event for an Idle item does exactly one of two things: when
   * the item is not waiting for a next file, UpdateTimeForFileToBeReady;
   * otherwise a "restarting count" line and ResetTimer.
   */
  lemma IdleItemDispatch(s: Settings, types: Option<seq<string>>, reg: map<string, FileChangeItem>,
                         a: Arrival, rx: RegexEngine, view: ItemView)
    requires Accepted(s, types, a, rx)
    requires a.e.name in reg && view.stateAt(reg[a.e.name], a.now) == Idle
    ensures var r := Step(s, types, reg, a, rx, view);
      var item := reg[a.e.name];
      && r.registry.Keys == reg.Keys
      && (r.outcome == ReadyTimeUpdated <==> !view.waiting(item, a.now))
      && (r.outcome == Restarted <==> view.waiting(item, a.now))
      && (!view.waiting(item, a.now) ==>
            r.registry == reg[a.e.name := Apply(item, UpdateTimeForFileToBeReady(a.now))]
            && r.logged == RawLog(s, a))
      && (view.waiting(item, a.now) ==>
            r.registry == reg[a.e.name := Apply(item, ResetTimer(a.e, a.now))]
            && r.logged == RawLog(s, a) + [RestartingCount(a.e.name)])
  {
  }

  /**
   * The registry stores each item under its own FileName: the handler adds an
   * item under watchItem.FileName and looks it up under e.Name, so the two
   * must agree for a later event to find the item.
   */
  predicate KeyedByFileName(reg: map<string, FileChangeItem>) {
    forall k :: k in reg ==> reg[k].fileName == k
  }

  /** One handler call keeps every item stored under its own FileName. */
  lemma StepKeepsKeyedByFileName(s: Settings, types: Option<seq<string>>, reg: map<string, FileChangeItem>,
                                 a: Arrival, rx: RegexEngine, view: ItemView)
    requires KeyedByFileName(reg)
    ensures KeyedByFileName(Step(s, types, reg, a, rx, view).registry)
  {
  }

  // ---------------------------------------------------------------------------
  // A sequence of events
  // ---------------------------------------------------------------------------

  /**
   * The registry after the handler has seen the arrivals in order, with the
   * settings and types fixed. An exception that escapes the handler ends the
   * process, so nothing after a Crashed step is seen. The item timers that run
   * between calls are seen only through view.
   */
  function Run(s: Settings, types: Option<seq<string>>, reg: map<string, FileChangeItem>,
               arrivals: seq<Arrival>, rx: RegexEngine, view: ItemView): (r: map<string, FileChangeItem>)
    ensures RegexGateThrows(s, rx) ==> r == reg
    ensures (forall i :: 0 <= i < |arrivals| ==> !Accepted(s, types, arrivals[i], rx)) ==> r == reg
    decreases |arrivals|
  {
    if arrivals == [] then reg
    else
      var r := Step(s, types, reg, arrivals[0], rx, view);
      if r.outcome == Crashed then reg
      else Run(s, types, r.registry, arrivals[1..], rx, view)
  }

  /** Any sequence of handler calls keeps every item stored under its own FileName. */
  lemma {:induction false} RunKeepsKeyedByFileName(s: Settings, types: Option<seq<string>>,
                                                   reg: map<string, FileChangeItem>, arrivals: seq<Arrival>,
                                                   rx: RegexEngine, view: ItemView)
    requires KeyedByFileName(reg)
    ensures KeyedByFileName(Run(s, types, reg, arrivals, rx, view))
    decreases |arrivals|
  {
    if arrivals != [] {
      var r := Step(s, types, reg, arrivals[0], rx, view);
      if r.outcome != Crashed {
        StepKeepsKeyedByFileName(s, types, reg, arrivals[0], rx, view);
        RunKeepsKeyedByFileName(s, types, r.registry, arrivals[1..], rx, view);
      }
    }
  }

  /** The names of the accepted arrivals. */
  function AcceptedNames(s: Settings, types: Option<seq<string>>, arrivals: seq<Arrival>, rx: RegexEngine): set<string> {
    set i | 0 <= i < |arrivals| && Accepted(s, types, arrivals[i], rx) :: arrivals[i].e.name
  }

  /**
   * No path removes an entry: the names in the registry after a run are the
   * names before it together with the names (e.Name) of the accepted events.
   */
  lemma {:induction false} RunKeys(s: Settings, types: Option<seq<string>>, reg: map<string, FileChangeItem>,
                                   arrivals: seq<Arrival>, rx: RegexEngine, view: ItemView)
    ensures Run(s, types, reg, arrivals, rx, view).Keys == reg.Keys + AcceptedNames(s, types, arrivals, rx)
    decreases |arrivals|
  {
    if arrivals != [] {
      var a := arrivals[0];
      var rest := arrivals[1..];
      var r := Step(s, types, reg, a, rx, view);
      var head: set<string> := if Accepted(s, types, a, rx) then {a.e.name} else {};
      assert AcceptedNames(s, types, arrivals, rx) == head + AcceptedNames(s, types, rest, rx) by {
        forall n | n in AcceptedNames(s, types, arrivals, rx)
          ensures n in head + AcceptedNames(s, types, rest, rx)
        {
          var i :| 0 <= i < |arrivals| && Accepted(s, types, arrivals[i], rx) && arrivals[i].e.name == n;
          if i > 0 {
            assert rest[i - 1] == arrivals[i];
          }
        }
        forall n | n in AcceptedNames(s, types, rest, rx)
          ensures n in AcceptedNames(s, types, arrivals, rx)
        {
          var j :| 0 <= j < |rest| && Accepted(s, types, rest[j], rx) && rest[j].e.name == n;
          assert arrivals[j + 1] == rest[j];
        }
      }
      if r.outcome == Crashed {
        assert RegexGateThrows(s, rx);
        assert AcceptedNames(s, types, arrivals, rx) == {};
      } else {
        assert r.registry.Keys == reg.Keys + head;
        RunKeys(s, types, r.registry, rest, rx, view);
      }
    }
  }

  /** The registry only grows. */
  lemma RunKeepsEveryName(s: Settings, types: Option<seq<string>>, reg: map<string, FileChangeItem>,
                          arrivals: seq<Arrival>, rx: RegexEngine, view: ItemView)
    ensures reg.Keys <= Run(s, types, reg, arrivals, rx, view).Keys
  {
    RunKeys(s, types, reg, arrivals, rx, view);
  }

  /**
   * Two accepted events with the same name relative to the watched folder
   * share one entry: the first creates it, and the second, arriving while the
   * new item is still Updating, resets that entry's timer.
   */
  lemma SameNameSharesEntry(s: Settings, types: Option<seq<string>>, reg: map<string, FileChangeItem>,
                            a1: Arrival, a2: Arrival, rx: RegexEngine, view: ItemView)
    requires Accepted(s, types, a1, rx) && Accepted(s, types, a2, rx)
    requires a1.e.name == a2.e.name && a1.e.name !in reg
    requires view.stateAt(NewItem(a1.e, s.initialTimerInterval, s.permittedIntervalBetweenFiles), a2.now) == Updating
    ensures Run(s, types, reg, [a1, a2], rx, view)
         == reg[a1.e.name := Apply(NewItem(a1.e, s.initialTimerInterval, s.permittedIntervalBetweenFiles),
                                   ResetTimer(a2.e, a2.now))]
  {
    var r1 := Step(s, types, reg, a1, rx, view);
    assert [a1, a2][1..] == [a2] && [a2][1..] == [];
    assert Run(s, types, reg, [a1, a2], rx, view) == Run(s, types, r1.registry, [a2], rx, view);
    assert Run(s, types, r1.registry, [a2], rx, view) == Step(s, types, r1.registry, a2, rx, view).registry;
  }

  /**
   * The same two events when the new item has reported ready (Idle) by the
   * time the second arrives: the second pushes the ready time out, or, when
   * the item is waiting for a next file, restarts the count with ResetTimer.
   */
  lemma SameNameAfterReady(s: Settings, types: Option<seq<string>>, reg: map<string, FileChangeItem>,
                           a1: Arrival, a2: Arrival, rx: RegexEngine, view: ItemView)
    requires Accepted(s, types, a1, rx) && Accepted(s, types, a2, rx)
    requires a1.e.name == a2.e.name && a1.e.name !in reg
    requires view.stateAt(NewItem(a1.e, s.initialTimerInterval, s.permittedIntervalBetweenFiles), a2.now) == Idle
    ensures var item := NewItem(a1.e, s.initialTimerInterval, s.permittedIntervalBetweenFiles);
      Run(s, types, reg, [a1, a2], rx, view)
        == reg[a1.e.name := Apply(item, if view.waiting(item, a2.now) then ResetTimer(a2.e, a2.now)
                                        else UpdateTimeForFileToBeReady(a2.now))]
  {
    var r1 := Step(s, types, reg, a1, rx, view);
    assert [a1, a2][1..] == [a2] && [a2][1..] == [];
    assert Run(s, types, reg, [a1, a2], rx, view) == Run(s, types, r1.registry, [a2], rx, view);
    assert Run(s, types, r1.registry, [a2], rx, view) == Step(s, types, r1.registry, a2, rx, view).registry;
  }

  /** The entry for a name, if any. */
  function Entry(reg: map<string, FileChangeItem>, name: string): Option<FileChangeItem> {
    if name in reg then Some(reg[name]) else None
  }

  /** The arrivals for one name, in order. */
  function ForName(arrivals: seq<Arrival>, name: string): (r: seq<Arrival>)
    ensures |r| <= |arrivals|
    ensures forall i :: 0 <= i < |r| ==> r[i].e.name == name
  {
    if arrivals == [] then []
    else if arrivals[0].e.name == name then [arrivals[0]] + ForName(arrivals[1..], name)
    else ForName(arrivals[1..], name)
  }

  /**
   * A run of events for one name reads only that name's entry: two registries
   * that agree on it agree on it after the run. (That the run writes no other
   * entry is RunIndependentAcrossNames.)
   */
  lemma {:induction false} RunOneNameIsLocal(s: Settings, types: Option<seq<string>>,
                                             reg1: map<string, FileChangeItem>, reg2: map<string, FileChangeItem>,
                                             arrivals: seq<Arrival>, name: string,
                                             rx: RegexEngine, view: ItemView)
    requires forall i :: 0 <= i < |arrivals| ==> arrivals[i].e.name == name
    requires Entry(reg1, name) == Entry(reg2, name)
    ensures Entry(Run(s, types, reg1, arrivals, rx, view), name) == Entry(Run(s, types, reg2, arrivals, rx, view), name)
    decreases |arrivals|
  {
    if arrivals != [] {
      var r1 := Step(s, types, reg1, arrivals[0], rx, view);
      var r2 := Step(s, types, reg2, arrivals[0], rx, view);
      assert r1.outcome == r2.outcome;
      assert Entry(r1.registry, name) == Entry(r2.registry, name);
      if r1.outcome != Crashed {
        RunOneNameIsLocal(s, types, r1.registry, r2.registry, arrivals[1..], name, rx, view);
      }
    }
  }

  /**
   * Independence across names: the entry of a name after a run is what the
   * events for that name alone would make of it; interleaved events for other
   * names have no effect on it.
   */
  lemma {:induction false} RunIndependentAcrossNames(s: Settings, types: Option<seq<string>>,
                                                     reg: map<string, FileChangeItem>, arrivals: seq<Arrival>,
                                                     name: string, rx: RegexEngine,
                                                     view: ItemView)
    ensures Entry(Run(s, types, reg, arrivals, rx, view), name)
         == Entry(Run(s, types, reg, ForName(arrivals, name), rx, view), name)
    decreases |arrivals|
  {
    if arrivals != [] {
      var a := arrivals[0];
      var rest := arrivals[1..];
      var r := Step(s, types, reg, a, rx, view);
      if a.e.name == name {
        assert ForName(arrivals, name) == [a] + ForName(rest, name);
        assert ([a] + ForName(rest, name))[1..] == ForName(rest, name);
        if r.outcome != Crashed {
          RunIndependentAcrossNames(s, types, r.registry, rest, name, rx, view);
        }
      } else {
        assert ForName(arrivals, name) == ForName(rest, name);
        if r.outcome == Crashed {
          var f := ForName(rest, name);
          if f != [] {
            assert Step(s, types, reg, f[0], rx, view).outcome == Crashed;
          }
        } else {
          RunIndependentAcrossNames(s, types, r.registry, rest, name, rx, view);
          RunOneNameIsLocal(s, types, r.registry, reg, ForName(rest, name), name, rx, view);
        }
      }
    }
  }
}
