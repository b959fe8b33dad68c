/** The Windows shell's main view model: the reporter's start/stop
    transitions, the one-second status poll, the bounded log and its search
    filter, and the change-only property setters that raise
    `PropertyChanged`.

    Timer ticks and dispatcher work items are ordinary method calls here:
    everything the bridge hands to the view model's subscriber actions is
    queued on the UI dispatcher by those actions, so the bridge's
    `handedOver` list is also the dispatcher queue, and `RunNextDispatched`
    runs its oldest item. */
module WinViewModel {
  import opened Common
  import opened NativeMethods
  import opened RustBridgeWin

  datatype MonitorStatus = MonitorReady | MonitorRunning | MonitorStopped {
    function Text(): string
    {
      match this
      case MonitorReady => "就绪"
      case MonitorRunning => "监控中"
      case MonitorStopped => "已停止"
    }
  }

  datatype ApiStatus = ApiConnecting | ApiConnected | ApiDisconnected | ApiError {
    function Text(): string
    {
      match this
      case ApiConnecting => "连接中..."
      case ApiConnected => "已连接"
      case ApiDisconnected => "未连接"
      case ApiError => "连接失败"
    }
  }

  datatype Color = Gray | Green | Orange | Red

  /** `MonitorStatusColor`, a chain of string comparisons: green only
      while monitoring, grey only when stopped, never red. */
  function MonitorStatusColor(status: string): (c: Color)
    ensures c == Green <==> status == MonitorRunning.Text()
    ensures c == Gray <==> status == MonitorStopped.Text()
    ensures c != Red
  {
    assert MonitorRunning.Text()[0] != MonitorStopped.Text()[0];
    if status == MonitorStopped.Text() then Gray
    else if status == MonitorRunning.Text() then Green
    else Orange
  }

  /** `ApiStatusColor`, a chain of string comparisons: red only for a
      failed connection, orange only while connecting, green only when
      connected, and grey for anything else. */
  function ApiStatusColor(status: string): (c: Color)
    ensures c == Red <==> status == ApiError.Text()
    ensures c == Orange <==> status == ApiConnecting.Text()
    ensures c == Green <==> status == ApiConnected.Text()
  {
    assert ApiConnecting.Text()[0] != ApiDisconnected.Text()[0] && ApiConnecting.Text()[2] != ApiError.Text()[2];
    assert ApiConnected.Text()[0] != ApiDisconnected.Text()[0] && ApiConnected.Text()[0] != ApiError.Text()[0];
    assert ApiConnected.Text()[0] != ApiConnecting.Text()[0];
    assert ApiError.Text()[0] != ApiDisconnected.Text()[0];
    if status == ApiDisconnected.Text() then Gray
    else if status == ApiError.Text() then Red
    else if status == ApiConnecting.Text() then Orange
    else if status == ApiConnected.Text() then Green
    else Gray
  }

  /** The colour each status is shown in: stopped grey, running green,
      ready orange; disconnected grey, failed red, connecting orange,
      connected green. */
  lemma StatusColors(m: MonitorStatus, a: ApiStatus)
    ensures MonitorStatusColor(m.Text()) == match m
      case MonitorStopped => Gray
      case MonitorRunning => Green
      case MonitorReady => Orange
    ensures ApiStatusColor(a.Text()) == match a
      case ApiDisconnected => Gray
      case ApiError => Red
      case ApiConnecting => Orange
      case ApiConnected => Green
  {
    assert MonitorReady.Text()[0] != MonitorStopped.Text()[0] && MonitorReady.Text()[0] != MonitorRunning.Text()[0];
    assert MonitorRunning.Text()[0] != MonitorStopped.Text()[0];
    assert ApiConnecting.Text()[0] != ApiDisconnected.Text()[0] && ApiConnecting.Text()[2] != ApiError.Text()[2];
    assert ApiConnected.Text()[0] != ApiDisconnected.Text()[0] && ApiConnected.Text()[0] != ApiError.Text()[0];
    assert ApiConnected.Text()[0] != ApiConnecting.Text()[0];
    assert ApiError.Text()[0] != ApiDisconnected.Text()[0];
  }

  /** `LogEntry` (the timestamp is not modelled). */
  datatype LogEntry = LogEntry(message: string, level: LogLevel)

  /** Names of the properties a `PropertyChanged` event can carry. */
  datatype Prop =
    | IsRunningProp | IsConnectedProp | LastErrorProp | HasErrorProp
    | MonitorStatusProp | MonitorStatusColorProp | ApiStatusProp | ApiStatusColorProp
    | CurrentWindowProp | CurrentMediaProp | HasDataProp | FilteredLogsProp

  const MaxLogs: nat := 200

  const InvalidConfigMessage: string := "配置无效：请填写 WebSocket 地址和 Token"
  const SaveFailedMessage: string := "保存配置失败"
  const StartFailedMessage: string := "启动 Reporter 失败"
  const ErrorPrefix: string := "错误: "

  // ---------------------------------------------------------------------
  // Log search
  // ---------------------------------------------------------------------

  /** An entry is shown for a search when its message contains the
      lower-cased search text, ignoring case. */
  function MatchesSearch(e: LogEntry, search: string): (b: bool)
    ensures search == "" ==> b
    ensures b ==> |search| <= |e.message|
  {
    assert search == "" ==> OccursAt(ToUpper(e.message), ToUpper(ToLower(search)), 0);
    ContainsIgnoreCase(e.message, ToLower(search))
  }

  /** The entries matching `search`, in log order. */
  function Filter(logs: seq<LogEntry>, search: string): (r: seq<LogEntry>)
    ensures |r| <= |logs|
    decreases |logs|
  {
    if logs == [] then []
    else
      var last := logs[|logs| - 1];
      Filter(logs[..|logs| - 1], search) + (if MatchesSearch(last, search) then [last] else [])
  }

  /** Filtering keeps the order: the filter of a concatenation is the
      concatenation of the filters. */
  lemma {:induction false} FilterAppend(a: seq<LogEntry>, b: seq<LogEntry>, search: string)
    ensures Filter(a + b, search) == Filter(a, search) + Filter(b, search)
    decreases |b|
  {
    if b != [] {
      var b' := b[..|b| - 1];
      assert (a + b)[..|a + b| - 1] == a + b';
      FilterAppend(a, b', search);
    } else {
      assert a + b == a;
    }
  }

  /** Exactly the matching entries are kept. */
  lemma {:induction false} FilterMembers(logs: seq<LogEntry>, search: string, e: LogEntry)
    ensures e in Filter(logs, search) <==> e in logs && MatchesSearch(e, search)
    decreases |logs|
  {
    if logs != [] {
      var init := logs[..|logs| - 1];
      FilterMembers(init, search, e);
      assert logs == init + [logs[|logs| - 1]];
    }
  }

  /** Searching for the lower-cased text is searching for the text. */
  lemma MatchesSearchIgnoresCase(e: LogEntry, search: string)
    ensures MatchesSearch(e, search) == ContainsIgnoreCase(e.message, search)
  {
    ToLowerIgnoredByIgnoreCase(e.message, search);
  }

  // ---------------------------------------------------------------------
  // Status poll
  // ---------------------------------------------------------------------

  /** The part of the view model a status tick reads and writes. */
  datatype TickState = TickState(isConnected: bool, apiStatus: ApiStatus, lastError: Option<string>)

  /** A polled error is new when it is present and differs from the stored one. */
  predicate NewError(lastError: Option<string>, polled: ReporterStatus)
  {
    polled.lastError.Some? && polled.lastError != lastError
  }

  /** One tick while running: the connection flag follows the poll, the
      API status is reset only on a connection edge, and a new error is
      stored and shows as a failed connection. */
  function Tick(s: TickState, polled: ReporterStatus): (r: TickState)
    ensures r.isConnected == polled.isConnected
    ensures r.lastError == if polled.lastError.Some? then polled.lastError else s.lastError
    ensures NewError(s.lastError, polled) ==> r.apiStatus == ApiError
    ensures !NewError(s.lastError, polled) && polled.isConnected == s.isConnected ==> r.apiStatus == s.apiStatus
  {
    var edged :=
      if polled.isConnected != s.isConnected then
        s.(isConnected := polled.isConnected, apiStatus := if polled.isConnected then ApiConnected else ApiConnecting)
      else s;
    if NewError(edged.lastError, polled) then edged.(lastError := polled.lastError, apiStatus := ApiError)
    else edged
  }

  /** The log line a tick adds, if any. */
  function TickLog(s: TickState, polled: ReporterStatus): (r: Option<string>)
    ensures r.Some? <==> NewError(s.lastError, polled)
  {
    if NewError(s.lastError, polled) then Some(ErrorPrefix + polled.lastError.value) else None
  }

  /** Polling the same status twice: the second tick changes nothing and
      logs nothing. */
  lemma TickIdempotent(s: TickState, polled: ReporterStatus)
    ensures Tick(Tick(s, polled), polled) == Tick(s, polled)
    ensures TickLog(Tick(s, polled), polled) == None
  {
  }

  /** Number of ticks in a run of polls that change the connection flag. */
  function ConnectionChanges(s: TickState, polls: seq<ReporterStatus>): nat
    decreases |polls|
  {
    if polls == [] then 0
    else
      var next := Tick(s, polls[0]);
      (if next.isConnected != s.isConnected then 1 else 0) + ConnectionChanges(next, polls[1..])
  }

  /** Number of error lines a run of polls logs. */
  function ErrorLines(s: TickState, polls: seq<ReporterStatus>): nat
    decreases |polls|
  {
    if polls == [] then 0
    else (if TickLog(s, polls[0]).Some? then 1 else 0) + ErrorLines(Tick(s, polls[0]), polls[1..])
  }

  function ConnectedFlags(polls: seq<ReporterStatus>): (flags: seq<bool>)
    ensures |flags| == |polls|
    ensures forall i :: 0 <= i < |polls| ==> flags[i] == polls[i].isConnected
  {
    seq(|polls|, i requires 0 <= i < |polls| => polls[i].isConnected)
  }

  /** The connection flag changes once per edge of the polled flags. */
  lemma {:induction false} ConnectionChangesAreEdges(s: TickState, polls: seq<ReporterStatus>)
    ensures ConnectionChanges(s, polls) == Edges(s.isConnected, ConnectedFlags(polls))
    decreases |polls|
  {
    if polls != [] {
      ConnectionChangesAreEdges(Tick(s, polls[0]), polls[1..]);
      assert ConnectedFlags(polls)[1..] == ConnectedFlags(polls[1..]);
    }
  }

  /** The same error polled any number of times is logged at most once:
      once when it differs from the stored error, never when it does not. */
  lemma {:induction false} RepeatedErrorLoggedOnce(s: TickState, polls: seq<ReporterStatus>, e: string)
    requires polls != []
    requires forall i :: 0 <= i < |polls| ==> polls[i].lastError == Some(e)
    ensures ErrorLines(s, polls) == if s.lastError == Some(e) then 0 else 1
    decreases |polls|
  {
    if |polls| > 1 {
      RepeatedErrorLoggedOnce(Tick(s, polls[0]), polls[1..], e);
    }
  }

  /** Polls without an error never clear the stored error. */
  lemma {:induction false} NoErrorKeepsLastError(s: TickState, polls: seq<ReporterStatus>)
    requires forall i :: 0 <= i < |polls| ==> polls[i].lastError.None?
    ensures ErrorLines(s, polls) == 0
    ensures RunTicks(s, polls).lastError == s.lastError
    decreases |polls|
  {
    if polls != [] {
      NoErrorKeepsLastError(Tick(s, polls[0]), polls[1..]);
    }
  }

  /** The state after a run of ticks. */
  function RunTicks(s: TickState, polls: seq<ReporterStatus>): TickState
    decreases |polls|
  {
    if polls == [] then s else RunTicks(Tick(s, polls[0]), polls[1..])
  }

  /** What `GetStatus` answers for a bridge holding `handle`. */
  function Polled(handle: Handle, native: SmStatus): ReporterStatus
    reads native.lastError
  {
    if handle == NullHandle then ReporterStatus(false, false, None)
    else ReporterStatus(native.isRunning, native.isConnected, StringAt(native.lastError))
  }

  /** A log with one more entry, capped at the newest `MaxLogs`. */
  function LogAppended(logs: seq<LogEntry>, line: Option<string>): seq<LogEntry>
  {
    if line.None? then logs else AppendCapped(logs, LogEntry(line.value, Error), MaxLogs)
  }

  /** `p` was announced at or after position `from` of the event list. */
  ghost predicate AnnouncedSince(events: seq<Prop>, from: nat, p: Prop)
  {
    exists i :: from <= i < |events| && events[i] == p
  }

  /** Events that do not include `p` announce nothing new about it. */
  lemma QuietAppend(events: seq<Prop>, from: nat, more: seq<Prop>, p: Prop)
    requires from <= |events| && !AnnouncedSince(events, from, p) && p !in more
    ensures !AnnouncedSince(events + more, from, p)
  {
    forall i | from <= i < |events + more|
      ensures (events + more)[i] != p
    {
      if i >= |events| {
        assert (events + more)[i] == more[i - |events|];
      }
    }
  }

  /** Events after `e1` that do not announce `p` leave what was announced
      since `from` as it was. */
  lemma AnnouncedKept(e1: seq<Prop>, e2: seq<Prop>, from: nat, p: Prop)
    requires e1 <= e2 && from <= |e1| && !AnnouncedSince(e2, |e1|, p)
    ensures AnnouncedSince(e2, from, p) <==> AnnouncedSince(e1, from, p)
  {
    if AnnouncedSince(e2, from, p) {
      var i :| from <= i < |e2| && e2[i] == p;
      assert i < |e1| && e1[i] == p;
    }
    if AnnouncedSince(e1, from, p) {
      var i :| from <= i < |e1| && e1[i] == p;
      assert e2[i] == p;
    }
  }

  /** Native results a `SaveConfig` call sees. */
  datatype SaveOutcome = SaveOutcome(saved: bool, fault: Fault) {
    predicate Succeeds() { fault == NoFault && saved }
  }

  /** Native results a bridge `StartReporter` call sees. */
  datatype StartOutcome = StartOutcome(running: bool, handle: Handle, fault: Fault) {
    predicate Succeeds() { !running && fault == NoFault && handle != NullHandle }
  }

  /** The bridge calls of a bridge `StartReporter` on `config`: the
      `is_running` query, then, unless it answers yes, the start call with
      the marshalled config (the copies `ws` and `tok`). */
  ghost predicate StartCall(before: seq<NativeCall>, after: seq<NativeCall>, config: ReporterConfig,
                            start: StartOutcome, ws: array?<byte>, tok: array?<byte>)
    reads ws, tok
  {
    if start.running then after == before + [ReporterIsRunning]
    else MarshalledCall(before + [ReporterIsRunning], after, Start, config, start.fault, ws, tok)
  }

  /** The bridge calls of `StartReporter` past the input check: `config` is
      saved (ending the trace at `mid`); after a successful save the bridge
      is started on the same `config` (ending at `end`), and a successful
      start registers the three wrapper delegates. */
  ghost predicate SaveThenStart(before: seq<NativeCall>, after: seq<NativeCall>, config: ReporterConfig,
                                save: SaveOutcome, start: StartOutcome, mid: seq<NativeCall>, end: seq<NativeCall>,
                                ws: array?<byte>, tok: array?<byte>, ws2: array?<byte>, tok2: array?<byte>)
    reads ws, tok, ws2, tok2
  {
    MarshalledCall(before, mid, Save, config, save.fault, ws, tok) &&
    if !save.Succeeds() then after == mid
    else StartCall(mid, end, config, start, ws2, tok2) &&
         after == end + (if start.Succeeds() then [RegisterLog(Wrapper), RegisterWindow(Wrapper), RegisterMedia(Wrapper)] else [])
  }

  class MainViewModel {
    const bridge: RustBridge

    var config: ReporterConfig
    var isRunning: bool
    var isConnected: bool
    var lastError: Option<string>
    var monitorStatus: MonitorStatus
    var apiStatus: ApiStatus
    var currentWindow: Option<WindowData>
    var currentMedia: Option<MediaData>
    var searchText: string
    var logs: seq<LogEntry>
    /** Whether the one-second status timer is started. */
    var timerRunning: bool
    /** `PropertyChanged` events raised, oldest first. */
    var notifications: seq<Prop>

    ghost predicate Valid()
      reads this
    {
      |logs| <= MaxLogs && (!isRunning ==> !isConnected) && timerRunning == isRunning
    }

    /** An error message is shown: there is one and it is not empty. */
    function HasError(): (b: bool)
      reads this
      ensures b <==> lastError.Some? && |lastError.value| > 0
      ensures lastError.None? ==> !b
    {
      lastError.Some? && lastError.value != ""
    }

    /** Some window or media data is shown. */
    function HasData(): (b: bool)
      reads this
      ensures b <==> !(currentWindow.None? && currentMedia.None?)
    {
      currentWindow.Some? || currentMedia.Some?
    }

    function TickView(): TickState
      reads this
    {
      TickState(isConnected, apiStatus, lastError)
    }

    /** The constructor: a new bridge, subscribed to and given the wrapper
        delegates, then the stored config loaded into the form. `loaded`
        and `readFails` are the library's answer to the load. */
    constructor (loaded: Option<SmConfig>, readFails: bool)
      ensures Valid() && fresh(bridge)
      ensures !isRunning && !isConnected && lastError == None && logs == []
      ensures monitorStatus == MonitorReady && apiStatus == ApiDisconnected
      ensures bridge.onLog && bridge.onWindowData && bridge.onMediaData && bridge.onClearState
      ensures bridge.logDelegate == Some(Wrapper) && bridge.windowDelegate == Some(Wrapper)
      ensures bridge.mediaDelegate == Some(Wrapper)
      ensures bridge.reporterHandle == NullHandle && bridge.updatesEnabled && bridge.handedOver == []
      ensures bridge.trace == [RegisterLog(Wrapper), RegisterWindow(Wrapper), RegisterMedia(Wrapper), ConfigLoad]
                              + (if loaded.Some? then [ConfigFree] else [])
      ensures loaded.None? || readFails ==> config == ReporterConfig(false, "", "", false)
      ensures loaded.Some? && !readFails ==>
        config == ReporterConfig(loaded.value.enabled, StringOrEmpty(loaded.value.wsUrl),
                                 StringOrEmpty(loaded.value.token), loaded.value.enableMediaReporting)
    {
      bridge := new RustBridge();
      config := ReporterConfig(false, "", "", false);
      isRunning, isConnected, lastError := false, false, None;
      monitorStatus, apiStatus := MonitorReady, ApiDisconnected;
      currentWindow, currentMedia := None, None;
      searchText := "";
      logs := [];
      timerRunning := false;
      notifications := [];
      new;
      SetupCallbacks();
      LoadConfig(loaded, readFails);
    }

    // -------------------------------------------------------------------
    // Change-only setters
    // -------------------------------------------------------------------

    method SetIsRunning(v: bool)
      modifies this`isRunning, this`notifications
      ensures isRunning == v
      ensures notifications == old(notifications) + if old(isRunning) != v then [IsRunningProp] else []
    {
      if isRunning != v {
        isRunning := v;
        notifications := notifications + [IsRunningProp];
      }
    }

    method SetIsConnected(v: bool)
      modifies this`isConnected, this`notifications
      ensures isConnected == v
      ensures notifications == old(notifications) + if old(isConnected) != v then [IsConnectedProp] else []
    {
      if isConnected != v {
        isConnected := v;
        notifications := notifications + [IsConnectedProp];
      }
    }

    method SetLastError(v: Option<string>)
      modifies this`lastError, this`notifications
      ensures lastError == v
      ensures notifications == old(notifications) + if old(lastError) != v then [LastErrorProp, HasErrorProp] else []
    {
      if lastError != v {
        lastError := v;
        notifications := notifications + [LastErrorProp, HasErrorProp];
      }
    }

    method SetMonitorStatus(v: MonitorStatus)
      modifies this`monitorStatus, this`notifications
      ensures monitorStatus == v
      ensures notifications == old(notifications) +
        if old(monitorStatus) != v then [MonitorStatusProp, MonitorStatusColorProp] else []
    {
      if monitorStatus != v {
        monitorStatus := v;
        notifications := notifications + [MonitorStatusProp, MonitorStatusColorProp];
      }
    }

    method SetApiStatus(v: ApiStatus)
      modifies this`apiStatus, this`notifications
      ensures apiStatus == v
      ensures notifications == old(notifications) + if old(apiStatus) != v then [ApiStatusProp, ApiStatusColorProp] else []
    {
      if apiStatus != v {
        apiStatus := v;
        notifications := notifications + [ApiStatusProp, ApiStatusColorProp];
      }
    }

    /** Window data arrive as new objects and are compared by reference, so
        only assigning null over null raises no event. */
    method SetCurrentWindow(v: Option<WindowData>)
      modifies this`currentWindow, this`notifications
      ensures currentWindow == v
      ensures notifications == old(notifications) +
        if old(currentWindow).Some? || v.Some? then [CurrentWindowProp, HasDataProp] else []
    {
      if currentWindow.Some? || v.Some? {
        currentWindow := v;
        notifications := notifications + [CurrentWindowProp, HasDataProp];
      }
    }

    method SetCurrentMedia(v: Option<MediaData>)
      modifies this`currentMedia, this`notifications
      ensures currentMedia == v
      ensures notifications == old(notifications) +
        if old(currentMedia).Some? || v.Some? then [CurrentMediaProp, HasDataProp] else []
    {
      if currentMedia.Some? || v.Some? {
        currentMedia := v;
        notifications := notifications + [CurrentMediaProp, HasDataProp];
      }
    }

    // -------------------------------------------------------------------
    // Logs
    // -------------------------------------------------------------------

    /** `AddLog`: the entry goes last and the oldest entries beyond 200 are
        removed one at a time from the front. An active search is told its
        result may have changed. */
    method AddLog(message: string, level: LogLevel)
      modifies this`logs, this`notifications
      ensures logs == AppendCapped(old(logs), LogEntry(message, level), MaxLogs)
      ensures notifications == old(notifications) + if !IsBlank(searchText) then [FilteredLogsProp] else []
    {
      logs := logs + [LogEntry(message, level)];
      if |logs| > MaxLogs {
        var removeCount := |logs| - MaxLogs;
        var i := 0;
        while i < removeCount
          invariant 0 <= i <= removeCount
          invariant logs == (old(logs) + [LogEntry(message, level)])[i..]
          invariant notifications == old(notifications)
        {
          logs := logs[1..];
          i := i + 1;
        }
      }
      if !IsBlank(searchText) {
        notifications := notifications + [FilteredLogsProp];
      }
    }

    /** `FilteredLogs`: the whole log when the search text is blank,
        otherwise the matching entries in order. */
    method FilteredLogs() returns (r: seq<LogEntry>)
      ensures IsBlank(searchText) ==> r == logs
      ensures !IsBlank(searchText) ==> r == Filter(logs, searchText)
    {
      if IsBlank(searchText) {
        return logs;
      }
      var filtered := [];
      var i := 0;
      while i < |logs|
        invariant 0 <= i <= |logs|
        invariant filtered == Filter(logs[..i], searchText)
      {
        assert logs[..i + 1][..i] == logs[..i];
        if MatchesSearch(logs[i], searchText) {
          filtered := filtered + [logs[i]];
        }
        i := i + 1;
      }
      assert logs[..i] == logs;
      r := filtered;
    }

    // -------------------------------------------------------------------
    // Commands
    // -------------------------------------------------------------------

    /** `SetupCallbacks`: subscribe to all four bridge actions, then hand
        the three wrapper delegates to the library. */
    method SetupCallbacks()
      modifies bridge
      ensures bridge.onLog && bridge.onWindowData && bridge.onMediaData && bridge.onClearState
      ensures bridge.logDelegate == Some(Wrapper) && bridge.windowDelegate == Some(Wrapper)
      ensures bridge.mediaDelegate == Some(Wrapper)
      ensures bridge.trace == old(bridge.trace) + [RegisterLog(Wrapper), RegisterWindow(Wrapper), RegisterMedia(Wrapper)]
      ensures bridge.reporterHandle == old(bridge.reporterHandle) && bridge.updatesEnabled == old(bridge.updatesEnabled)
      ensures bridge.handedOver == old(bridge.handedOver)
    {
      bridge.onLog, bridge.onWindowData, bridge.onMediaData, bridge.onClearState := true, true, true, true;
      bridge.SetLogCallback();
      bridge.SetWindowCallback();
      bridge.SetMediaCallback();
    }

    /** `StartReporter`. A blank address or token logs one error and calls
        nothing. Otherwise the config is marked enabled and saved; a failed
        save logs an error and starts nothing. A successful start shows the
        reporter running and connecting with no error, subscribes and starts
        the poll; a failed one logs an error, marks the config disabled and
        shows the connection as failed, leaving `isRunning` alone. */
    method StartReporter(save: SaveOutcome, start: StartOutcome)
      requires Valid()
      modifies this, bridge
      ensures Valid()
      ensures IsBlank(old(config.wsUrl)) || IsBlank(old(config.token)) ==>
        logs == AppendCapped(old(logs), LogEntry(InvalidConfigMessage, Error), MaxLogs)
        && bridge.trace == old(bridge.trace) && config == old(config) && isRunning == old(isRunning)
        && monitorStatus == old(monitorStatus) && apiStatus == old(apiStatus)
      ensures !IsBlank(old(config.wsUrl)) && !IsBlank(old(config.token)) && !save.Succeeds() ==>
        logs == AppendCapped(old(logs), LogEntry(SaveFailedMessage, Error), MaxLogs)
        && config == old(config).(enabled := true) && isRunning == old(isRunning)
        && monitorStatus == old(monitorStatus) && apiStatus == old(apiStatus)
        && bridge.reporterHandle == old(bridge.reporterHandle)
        && exists ws: array?<byte>, tok: array?<byte> ::
             MarshalledCall(old(bridge.trace), bridge.trace, Save, old(config).(enabled := true), save.fault, ws, tok)
      ensures !IsBlank(old(config.wsUrl)) && !IsBlank(old(config.token)) && save.Succeeds() && start.Succeeds() ==>
        isRunning && monitorStatus == MonitorRunning && apiStatus == ApiConnecting && lastError == None
        && timerRunning && config == old(config).(enabled := true) && logs == old(logs)
        && bridge.reporterHandle == start.handle
        && bridge.onLog && bridge.onWindowData && bridge.onMediaData && bridge.onClearState
      ensures !IsBlank(old(config.wsUrl)) && !IsBlank(old(config.token)) && save.Succeeds() && !start.Succeeds() ==>
        logs == AppendCapped(old(logs), LogEntry(StartFailedMessage, Error), MaxLogs)
        && config == old(config).(enabled := false) && isRunning == old(isRunning)
        && monitorStatus == MonitorReady && apiStatus == ApiError
        && isConnected == old(isConnected) && lastError == old(lastError) && timerRunning == old(timerRunning)
        && currentWindow == old(currentWindow) && currentMedia == old(currentMedia)
        && bridge.reporterHandle == (if !start.running && start.fault == NoFault then start.handle else old(bridge.reporterHandle))
      ensures !IsBlank(old(config.wsUrl)) && !IsBlank(old(config.token)) ==>
        exists mid: seq<NativeCall>, end: seq<NativeCall>, ws: array?<byte>, tok: array?<byte>, ws2: array?<byte>, tok2: array?<byte> ::
          SaveThenStart(old(bridge.trace), bridge.trace, old(config).(enabled := true), save, start, mid, end, ws, tok, ws2, tok2)
    {
      if IsBlank(config.wsUrl) || IsBlank(config.token) {
        AddLog(InvalidConfigMessage, Error);
        return;
      }
      ghost var mid, end, ws, tok, ws2, tok2 := SaveAndStart(save, start);
    }

    /** `StartReporter` past the input check: the config is saved enabled,
        then the bridge is started. */
    method SaveAndStart(save: SaveOutcome, start: StartOutcome)
      returns (ghost mid: seq<NativeCall>, ghost end: seq<NativeCall>, ghost ws: array?<byte>, ghost tok: array?<byte>,
               ghost ws2: array?<byte>, ghost tok2: array?<byte>)
      requires Valid()
      modifies this, bridge
      ensures Valid()
      ensures !save.Succeeds() ==>
        logs == AppendCapped(old(logs), LogEntry(SaveFailedMessage, Error), MaxLogs)
        && config == old(config).(enabled := true) && isRunning == old(isRunning)
        && monitorStatus == old(monitorStatus) && apiStatus == old(apiStatus)
        && bridge.reporterHandle == old(bridge.reporterHandle)
        && exists ws: array?<byte>, tok: array?<byte> ::
             MarshalledCall(old(bridge.trace), bridge.trace, Save, old(config).(enabled := true), save.fault, ws, tok)
      ensures save.Succeeds() && start.Succeeds() ==>
        isRunning && monitorStatus == MonitorRunning && apiStatus == ApiConnecting && lastError == None
        && timerRunning && config == old(config).(enabled := true) && logs == old(logs)
        && bridge.reporterHandle == start.handle
        && bridge.onLog && bridge.onWindowData && bridge.onMediaData && bridge.onClearState
      ensures save.Succeeds() && !start.Succeeds() ==>
        logs == AppendCapped(old(logs), LogEntry(StartFailedMessage, Error), MaxLogs)
        && config == old(config).(enabled := false) && isRunning == old(isRunning)
        && monitorStatus == MonitorReady && apiStatus == ApiError
        && isConnected == old(isConnected) && lastError == old(lastError) && timerRunning == old(timerRunning)
        && currentWindow == old(currentWindow) && currentMedia == old(currentMedia)
        && bridge.reporterHandle == (if !start.running && start.fault == NoFault then start.handle else old(bridge.reporterHandle))
      ensures SaveThenStart(old(bridge.trace), bridge.trace, old(config).(enabled := true), save, start, mid, end, ws, tok, ws2, tok2)
    {
      var saved;
      saved, ws, tok := SaveEnabled(save);
      mid := bridge.trace;
      end, ws2, tok2 := bridge.trace, null, null;
      if saved {
        end, ws2, tok2 := StartSaved(start);
      }
    }

    /** The first half of `StartReporter` past the input check: the config
        is marked enabled and saved; a failed save logs an error. */
    method SaveEnabled(save: SaveOutcome) returns (saved: bool, ghost ws: array?<byte>, ghost tok: array?<byte>)
      requires Valid()
      modifies this`config, this`logs, this`notifications, bridge`trace
      ensures Valid()
      ensures saved == save.Succeeds()
      ensures config == old(config).(enabled := true)
      ensures logs == if saved then old(logs) else AppendCapped(old(logs), LogEntry(SaveFailedMessage, Error), MaxLogs)
      ensures MarshalledCall(old(bridge.trace), bridge.trace, Save, old(config).(enabled := true), save.fault, ws, tok)
    {
      config := config.(enabled := true);
      ghost var before := bridge.trace;
      saved, ws, tok := SaveToBridge(save);
      if !saved {
        ShowSaveFailed();
      }
      assert MarshalledCall(before, bridge.trace, Save, config, save.fault, ws, tok);
    }

    /** The failed-save branch of `StartReporter`: one error is logged and
        nothing else is touched. */
    method ShowSaveFailed()
      modifies this`logs, this`notifications
      ensures logs == AppendCapped(old(logs), LogEntry(SaveFailedMessage, Error), MaxLogs)
    {
      AddLog(SaveFailedMessage, Error);
    }

    /** `StartReporter` once the config is saved: the bridge is started and
        the view shows the outcome. */
    method StartSaved(start: StartOutcome) returns (ghost end: seq<NativeCall>, ghost ws: array?<byte>, ghost tok: array?<byte>)
      requires Valid()
      modifies this, bridge
      ensures Valid()
      ensures start.Succeeds() ==>
        isRunning && monitorStatus == MonitorRunning && apiStatus == ApiConnecting && lastError == None
        && timerRunning && config == old(config) && logs == old(logs)
        && bridge.reporterHandle == start.handle
        && bridge.onLog && bridge.onWindowData && bridge.onMediaData && bridge.onClearState
      ensures !start.Succeeds() ==>
        logs == AppendCapped(old(logs), LogEntry(StartFailedMessage, Error), MaxLogs)
        && config == old(config).(enabled := false) && isRunning == old(isRunning)
        && monitorStatus == MonitorReady && apiStatus == ApiError
        && isConnected == old(isConnected) && lastError == old(lastError) && timerRunning == old(timerRunning)
        && currentWindow == old(currentWindow) && currentMedia == old(currentMedia)
        && bridge.reporterHandle == (if !start.running && start.fault == NoFault then start.handle else old(bridge.reporterHandle))
      ensures StartCall(old(bridge.trace), end, old(config), start, ws, tok)
      ensures bridge.trace == end + (if start.Succeeds() then [RegisterLog(Wrapper), RegisterWindow(Wrapper), RegisterMedia(Wrapper)] else [])
    {
      var started;
      started, ws, tok := StartBridge(start);
      end := bridge.trace;
      if started {
        ShowStarted();
      } else {
        ShowStartFailed();
      }
    }

    /** The bridge's `SaveConfig` on the form's config, seen from the
        view: whether it saved. */
    method SaveToBridge(save: SaveOutcome) returns (saved: bool, ghost ws: array?<byte>, ghost tok: array?<byte>)
      modifies bridge`trace
      ensures saved == save.Succeeds()
      ensures MarshalledCall(old(bridge.trace), bridge.trace, Save, config, save.fault, ws, tok)
    {
      saved := bridge.SaveConfig(config, save.saved, save.fault);
      ws, tok :| MarshalledCall(old(bridge.trace), bridge.trace, Save, config, save.fault, ws, tok);
    }

    /** The bridge's `StartReporter` on the form's config, seen from the
        view: whether it started, and the handle it keeps. */
    method StartBridge(start: StartOutcome) returns (started: bool, ghost ws: array?<byte>, ghost tok: array?<byte>)
      modifies bridge`trace, bridge`reporterHandle
      ensures started == start.Succeeds()
      ensures bridge.reporterHandle == if !start.running && start.fault == NoFault then start.handle else old(bridge.reporterHandle)
      ensures StartCall(old(bridge.trace), bridge.trace, config, start, ws, tok)
    {
      started := bridge.StartReporter(config, start.running, start.handle, start.fault);
      if start.running {
        ws, tok := null, null;
      } else {
        ws, tok :| MarshalledCall(old(bridge.trace) + [ReporterIsRunning], bridge.trace, Start, config, start.fault, ws, tok);
      }
    }

    /** The success branch of `StartReporter`. */
    method ShowStarted()
      modifies this`isRunning, this`monitorStatus, this`apiStatus, this`lastError, this`notifications
      modifies this`timerRunning, bridge
      ensures isRunning && monitorStatus == MonitorRunning && apiStatus == ApiConnecting && lastError == None
      ensures timerRunning
      ensures bridge.onLog && bridge.onWindowData && bridge.onMediaData && bridge.onClearState
      ensures bridge.reporterHandle == old(bridge.reporterHandle)
      ensures bridge.trace == old(bridge.trace) + [RegisterLog(Wrapper), RegisterWindow(Wrapper), RegisterMedia(Wrapper)]
    {
      SetIsRunning(true);
      SetMonitorStatus(MonitorRunning);
      SetApiStatus(ApiConnecting);
      SetLastError(None);
      SetupCallbacks();
      timerRunning := true;
    }

    /** The failure branch of `StartReporter`. */
    method ShowStartFailed()
      modifies this`logs, this`notifications, this`config, this`monitorStatus, this`apiStatus
      ensures logs == AppendCapped(old(logs), LogEntry(StartFailedMessage, Error), MaxLogs)
      ensures config == old(config).(enabled := false)
      ensures monitorStatus == MonitorReady && apiStatus == ApiError
    {
      AddLog(StartFailedMessage, Error);
      config := config.(enabled := false);
      SetMonitorStatus(MonitorReady);
      SetApiStatus(ApiError);
    }

    /** `StopReporter`: only when the bridge reports a stop does the view
        change: not running, not connected, no window, track or error, the
        poll stopped, and the config saved as disabled. The bridge's handle
        is zero afterwards in every case. */
    method StopReporter(stopped: bool, resave: SaveOutcome)
      requires Valid()
      modifies this, bridge
      ensures Valid()
      ensures bridge.reporterHandle == NullHandle
      ensures old(bridge.reporterHandle) == NullHandle || !stopped ==>
        isRunning == old(isRunning) && isConnected == old(isConnected) && lastError == old(lastError)
        && currentWindow == old(currentWindow) && currentMedia == old(currentMedia)
        && config == old(config) && logs == old(logs)
        && monitorStatus == old(monitorStatus) && apiStatus == old(apiStatus) && timerRunning == old(timerRunning)
      ensures old(bridge.reporterHandle) != NullHandle && stopped ==>
        !isRunning && !isConnected && monitorStatus == MonitorStopped && apiStatus == ApiDisconnected
        && currentWindow == None && currentMedia == None && lastError == None
        && !timerRunning && config == old(config).(enabled := false)
        && logs == old(logs)
      ensures old(bridge.reporterHandle) == NullHandle ==> bridge.trace == old(bridge.trace)
      ensures old(bridge.reporterHandle) != NullHandle && !stopped ==>
        bridge.trace == old(bridge.trace) + [ReporterStop(old(bridge.reporterHandle))]
      ensures old(bridge.reporterHandle) != NullHandle && stopped ==>
        exists ws: array?<byte>, tok: array?<byte> ::
          MarshalledCall(old(bridge.trace) + [ReporterStop(old(bridge.reporterHandle))], bridge.trace,
                         Save, old(config).(enabled := false), resave.fault, ws, tok)
      ensures bridge.logDelegate == old(bridge.logDelegate) && bridge.windowDelegate == old(bridge.windowDelegate)
        && bridge.mediaDelegate == old(bridge.mediaDelegate)
      ensures bridge.onLog == old(bridge.onLog) && bridge.onWindowData == old(bridge.onWindowData)
        && bridge.onMediaData == old(bridge.onMediaData) && bridge.onClearState == old(bridge.onClearState)
      ensures bridge.handedOver == old(bridge.handedOver) && bridge.updatesEnabled == old(bridge.updatesEnabled)
    {
      var ok := bridge.StopReporter(stopped);
      if ok {
        ShowStopped();
        config := config.(enabled := false);
        var _ := bridge.SaveConfig(config, resave.saved, resave.fault);
      }
    }

    /** The view changes of a reported stop. */
    method ShowStopped()
      modifies this`isRunning, this`isConnected, this`monitorStatus, this`apiStatus, this`currentWindow
      modifies this`currentMedia, this`lastError, this`notifications, this`timerRunning
      ensures !isRunning && !isConnected && monitorStatus == MonitorStopped && apiStatus == ApiDisconnected
      ensures currentWindow == None && currentMedia == None && lastError == None && !timerRunning
    {
      ShowStatusStopped();
      ClearShownData();
      timerRunning := false;
    }

    /** The status properties of a reported stop. */
    method ShowStatusStopped()
      modifies this`isRunning, this`isConnected, this`monitorStatus, this`apiStatus, this`notifications
      ensures !isRunning && !isConnected && monitorStatus == MonitorStopped && apiStatus == ApiDisconnected
    {
      SetIsRunning(false);
      SetIsConnected(false);
      SetMonitorStatus(MonitorStopped);
      SetApiStatus(ApiDisconnected);
    }

    /** The window, track and error of a reported stop. */
    method ClearShownData()
      modifies this`currentWindow, this`currentMedia, this`lastError, this`notifications
      ensures currentWindow == None && currentMedia == None && lastError == None
    {
      SetCurrentWindow(None);
      SetCurrentMedia(None);
      SetLastError(None);
    }

    /** `ToggleReporter`: stop when running, start otherwise. */
    method ToggleReporter(save: SaveOutcome, start: StartOutcome, stopped: bool)
      requires Valid()
      modifies this, bridge
      ensures Valid()
      ensures old(isRunning) ==> bridge.reporterHandle == NullHandle
      ensures (!old(isRunning) && save.Succeeds() && start.Succeeds() &&
               !IsBlank(old(config.wsUrl)) && !IsBlank(old(config.token))) ==> isRunning
      ensures old(isRunning) ==> (isRunning <==> !(old(bridge.reporterHandle) != NullHandle && stopped))
      ensures old(isRunning) && old(bridge.reporterHandle) != NullHandle && stopped ==>
        !isConnected && monitorStatus == MonitorStopped && apiStatus == ApiDisconnected
        && currentWindow == None && currentMedia == None && lastError == None
        && config == old(config).(enabled := false)
      ensures !old(isRunning) ==>
        (isRunning <==> !IsBlank(old(config.wsUrl)) && !IsBlank(old(config.token)) && save.Succeeds() && start.Succeeds())
      ensures !old(isRunning) && !IsBlank(old(config.wsUrl)) && !IsBlank(old(config.token)) ==>
        exists mid: seq<NativeCall>, end: seq<NativeCall>, ws: array?<byte>, tok: array?<byte>, ws2: array?<byte>, tok2: array?<byte> ::
          SaveThenStart(old(bridge.trace), bridge.trace, old(config).(enabled := true), save, start, mid, end, ws, tok, ws2, tok2)
    {
      if isRunning {
        StopReporter(stopped, save);
      } else {
        StartReporter(save, start);
      }
    }

    /** `OnStatusTimerTick`: nothing happens unless running. Otherwise the
        bridge is polled and the view moves as `Tick` says, logging the line
        `TickLog` gives; `IsConnected` is announced exactly on an edge. */
    method OnStatusTimerTick(native: SmStatus)
      requires Valid()
      modifies this, bridge`trace
      ensures Valid()
      ensures old(notifications) <= notifications
      ensures !old(isRunning) ==>
        TickView() == old(TickView()) && logs == old(logs) && bridge.trace == old(bridge.trace)
        && notifications == old(notifications)
      ensures old(isRunning) ==>
        var polled := Polled(bridge.reporterHandle, native);
        TickView() == Tick(old(TickView()), polled)
        && logs == LogAppended(old(logs), TickLog(old(TickView()), polled))
        && (AnnouncedSince(notifications, |old(notifications)|, IsConnectedProp) <==> polled.isConnected != old(isConnected))
      ensures isRunning == old(isRunning) && monitorStatus == old(monitorStatus) && config == old(config)
    {
      if !isRunning {
        return;
      }
      var status := bridge.GetStatus(native);
      ApplyPoll(status);
    }

    /** One poll's answer applied to the view: a connection edge, then a
        new error. */
    method ApplyPoll(status: ReporterStatus)
      modifies this`isConnected, this`apiStatus, this`lastError, this`logs, this`notifications
      ensures old(notifications) <= notifications
      ensures TickView() == Tick(old(TickView()), status)
      ensures logs == LogAppended(old(logs), TickLog(old(TickView()), status))
      ensures AnnouncedSince(notifications, |old(notifications)|, IsConnectedProp) <==> status.isConnected != old(isConnected)
    {
      if status.isConnected != isConnected {
        ApplyEdge(status.isConnected);
        assert notifications[|old(notifications)|] == IsConnectedProp;
      }
      ghost var n1 := notifications;
      if status.lastError.Some? && status.lastError != lastError {
        ApplyError(status.lastError.value);
        AnnouncedKept(n1, notifications, |old(notifications)|, IsConnectedProp);
      }
    }

    /** A connection edge: the flag follows the poll and the API status
        restarts from connected or connecting. */
    method ApplyEdge(connected: bool)
      requires connected != isConnected
      modifies this`isConnected, this`apiStatus, this`notifications
      ensures isConnected == connected && apiStatus == (if connected then ApiConnected else ApiConnecting)
      ensures old(notifications) <= notifications && |old(notifications)| < |notifications|
      ensures notifications[|old(notifications)|] == IsConnectedProp
    {
      SetIsConnected(connected);
      SetApiStatus(if connected then ApiConnected else ApiConnecting);
    }

    /** A new error: stored, shown as a failed connection, and logged. */
    method ApplyError(e: string)
      modifies this`lastError, this`apiStatus, this`logs, this`notifications
      ensures lastError == Some(e) && apiStatus == ApiError
      ensures logs == AppendCapped(old(logs), LogEntry(ErrorPrefix + e, Error), MaxLogs)
      ensures old(notifications) <= notifications
      ensures !AnnouncedSince(notifications, |old(notifications)|, IsConnectedProp)
    {
      ghost var n0 := notifications;
      SetLastError(Some(e));
      ghost var n1 := notifications;
      QuietAppend(n0, |n0|, n1[|n0|..], IsConnectedProp);
      SetApiStatus(ApiError);
      ghost var n2 := notifications;
      QuietAppend(n1, |n0|, n2[|n1|..], IsConnectedProp);
      AddLog(ErrorPrefix + e, Error);
      QuietAppend(n2, |n0|, notifications[|n2|..], IsConnectedProp);
    }

    /** `LoadConfig`: a config the bridge reads replaces the form's. */
    method LoadConfig(loaded: Option<SmConfig>, readFails: bool)
      modifies this`config, bridge`trace
      ensures bridge.trace == old(bridge.trace) + [ConfigLoad] + (if loaded.Some? then [ConfigFree] else [])
      ensures loaded.None? || readFails ==> config == old(config)
      ensures loaded.Some? && !readFails ==>
        config == ReporterConfig(loaded.value.enabled, StringOrEmpty(loaded.value.wsUrl),
                                 StringOrEmpty(loaded.value.token), loaded.value.enableMediaReporting)
    {
      var read := bridge.LoadConfig(loaded, readFails);
      if read.Some? {
        config := read.value;
      }
    }

    /** `ClearLogs`. */
    method ClearLogs()
      modifies this`logs
      ensures logs == []
    {
      logs := [];
    }

    /** `OnLoaded`: `running` is the library's `is_running` answer. A
        worker that is already running is shown as running and connecting,
        subscribed to and polled; otherwise the view shows ready and
        disconnected. */
    method OnLoaded(running: bool)
      requires Valid()
      modifies this`isRunning, this`monitorStatus, this`apiStatus, this`notifications, this`timerRunning, bridge
      ensures Valid()
      ensures |bridge.trace| > |old(bridge.trace)|
      ensures bridge.trace[..|old(bridge.trace)| + 1] == old(bridge.trace) + [ReporterIsRunning]
      ensures running ==>
        isRunning && monitorStatus == MonitorRunning && apiStatus == ApiConnecting && timerRunning
        && bridge.onLog && bridge.onWindowData && bridge.onMediaData && bridge.onClearState
      ensures !running ==>
        isRunning == old(isRunning) && monitorStatus == MonitorReady && apiStatus == ApiDisconnected
        && bridge.trace == old(bridge.trace) + [ReporterIsRunning]
    {
      var r := bridge.IsRunning(running);
      if r {
        SetIsRunning(true);
        SetMonitorStatus(MonitorRunning);
        SetApiStatus(ApiConnecting);
        SetupCallbacks();
        timerRunning := true;
      } else {
        SetMonitorStatus(MonitorReady);
        SetApiStatus(ApiDisconnected);
      }
    }

    /** `OnUnloaded`: the poll stops, the library gets do-nothing delegates,
        every subscriber action is unset and the log is emptied. */
    method OnUnloaded()
      modifies this`timerRunning, this`logs, bridge
      ensures !timerRunning && logs == []
      ensures !bridge.onLog && !bridge.onWindowData && !bridge.onMediaData && !bridge.onClearState
      ensures bridge.logDelegate == Some(Dummy) && bridge.windowDelegate == Some(Dummy)
      ensures bridge.mediaDelegate == Some(Dummy)
      ensures bridge.reporterHandle == old(bridge.reporterHandle)
    {
      timerRunning := false;
      bridge.ClearCallbacks();
      ClearLogs();
    }

    /** Run the oldest item on the dispatcher queue: a log line is added, a
        window or track becomes current, or both are cleared. */
    method RunNextDispatched()
      requires Valid() && bridge.handedOver != []
      modifies this, bridge`handedOver
      ensures Valid()
      ensures bridge.handedOver == old(bridge.handedOver[1..])
      ensures match old(bridge.handedOver[0])
        case LogUpdate(level, message) =>
          logs == AppendCapped(old(logs), LogEntry(message, level), MaxLogs)
          && currentWindow == old(currentWindow) && currentMedia == old(currentMedia)
        case WindowUpdate(w) => currentWindow == Some(w) && currentMedia == old(currentMedia) && logs == old(logs)
        case MediaUpdate(m) => currentMedia == Some(m) && currentWindow == old(currentWindow) && logs == old(logs)
        case ClearStateUpdate => !HasData() && logs == old(logs)
      ensures TickView() == old(TickView()) && isRunning == old(isRunning)
    {
      var item := bridge.handedOver[0];
      bridge.handedOver := bridge.handedOver[1..];
      match item
      case LogUpdate(level, message) =>
        AddLog(message, level);
      case WindowUpdate(w) =>
        SetCurrentWindow(Some(w));
      case MediaUpdate(m) =>
        SetCurrentMedia(Some(m));
      case ClearStateUpdate =>
        SetCurrentWindow(None);
        SetCurrentMedia(None);
    }
  }
}
