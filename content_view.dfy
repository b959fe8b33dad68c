/** The macOS shell's window state: configuration, the reporter handle, the
    status line, the last error, the alert and the bounded log, and the
    actions that start, stop and poll the reporter through the Swift bridge.

    The one-second timer is a plain call of `UpdateStatus`; the status-bar
    item is the last `(isRunning, isConnected)` pair pushed to it. */
module MacContentView {
  import opened Common
  import opened SwiftBridge

  datatype LogLevel = Info | Warning | Error

  /** `LogEntry` (identifier and timestamp are not modelled). */
  datatype LogEntry = LogEntry(message: string, level: LogLevel)

  datatype Color = Red | Orange | Green

  const MaxLogs: nat := 500

  const ConnectedLine: string := "Connected to server"
  const DisconnectedLine: string := "Disconnected from server"
  const ErrorPrefix: string := "Error: "

  /** `statusIndicatorColor`. */
  function StatusIndicatorColor(isRunning: bool, isConnected: bool): (c: Color)
    ensures c == Red <==> !isRunning
    ensures c == Green <==> isRunning && isConnected
    ensures c == Orange <==> isRunning && !isConnected
  {
    if isRunning then (if isConnected then Green else Orange) else Red
  }

  /** The part of the state one status poll reads and writes. */
  datatype TickState = TickState(isConnected: bool, statusMessage: string, lastError: Option<string>)

  /** A polled error is new when it is present and differs from the stored one. */
  predicate NewError(lastError: Option<string>, polled: ReporterStatus)
  {
    polled.lastError.Some? && polled.lastError != lastError
  }

  /** One poll while running: the connection flag and the status line follow
      the poll, and a new error is stored; an absent error keeps the old one. */
  function Tick(s: TickState, polled: ReporterStatus): (r: TickState)
    ensures r.isConnected == polled.isConnected
    ensures r.statusMessage == if polled.isConnected then "Connected" else "Connecting..."
    ensures r.lastError == if polled.lastError.Some? then polled.lastError else s.lastError
  {
    TickState(polled.isConnected, if polled.isConnected then "Connected" else "Connecting...",
              if NewError(s.lastError, polled) then polled.lastError else s.lastError)
  }

  /** The log lines of one poll, in order: the new error, then the
      connection change. */
  function TickLines(s: TickState, polled: ReporterStatus): (lines: seq<LogEntry>)
    ensures |lines| <= 2
    ensures LogEntry(ErrorPrefix + polled.lastError.GetOr(""), Error) in lines <==> NewError(s.lastError, polled)
    ensures (LogEntry(ConnectedLine, Info) in lines || LogEntry(DisconnectedLine, Info) in lines)
            <==> polled.isConnected != s.isConnected
  {
    (if NewError(s.lastError, polled) then [LogEntry(ErrorPrefix + polled.lastError.value, Error)] else [])
    + (if polled.isConnected != s.isConnected then
         [LogEntry(if polled.isConnected then ConnectedLine else DisconnectedLine, Info)]
       else [])
  }

  /** Polling the same status again adds nothing and changes nothing. */
  lemma TickIdempotent(s: TickState, polled: ReporterStatus)
    ensures Tick(Tick(s, polled), polled) == Tick(s, polled)
    ensures TickLines(Tick(s, polled), polled) == []
  {
  }

  /** The state after a run of polls. */
  function RunTicks(s: TickState, polls: seq<ReporterStatus>): TickState
    decreases |polls|
  {
    if polls == [] then s else RunTicks(Tick(s, polls[0]), polls[1..])
  }

  /** All log lines of a run of polls, in order. */
  function RunLines(s: TickState, polls: seq<ReporterStatus>): seq<LogEntry>
    decreases |polls|
  {
    if polls == [] then [] else TickLines(s, polls[0]) + RunLines(Tick(s, polls[0]), polls[1..])
  }

  /** Number of connection lines in a log. */
  function ConnectionLines(lines: seq<LogEntry>): nat
  {
    multiset(lines)[LogEntry(ConnectedLine, Info)] + multiset(lines)[LogEntry(DisconnectedLine, Info)]
  }

  function ConnectedFlags(polls: seq<ReporterStatus>): (flags: seq<bool>)
    ensures |flags| == |polls|
    ensures forall i :: 0 <= i < |polls| ==> flags[i] == polls[i].isConnected
  {
    seq(|polls|, i requires 0 <= i < |polls| => polls[i].isConnected)
  }

  /** One poll logs a connection line exactly when the flag changes. */
  lemma TickConnectionLines(s: TickState, p: ReporterStatus)
    ensures ConnectionLines(TickLines(s, p)) == if p.isConnected != s.isConnected then 1 else 0
  {
    var errorPart := if NewError(s.lastError, p) then [LogEntry(ErrorPrefix + p.lastError.value, Error)] else [];
    var edgePart := if p.isConnected != s.isConnected then
        [LogEntry(if p.isConnected then ConnectedLine else DisconnectedLine, Info)] else [];
    assert TickLines(s, p) == errorPart + edgePart;
    assert ErrorPrefix[0] == 'E' && ConnectedLine[0] == 'C' && DisconnectedLine[0] == 'D';
  }

  lemma ConnectionLinesConcat(a: seq<LogEntry>, b: seq<LogEntry>)
    ensures ConnectionLines(a + b) == ConnectionLines(a) + ConnectionLines(b)
  {
    assert multiset(a + b) == multiset(a) + multiset(b);
  }

  /** A run of polls logs one connection line per edge of the polled flags. */
  lemma {:induction false} ConnectionLinesAreEdges(s: TickState, polls: seq<ReporterStatus>)
    ensures ConnectionLines(RunLines(s, polls)) == Edges(s.isConnected, ConnectedFlags(polls))
    decreases |polls|
  {
    if polls != [] {
      var p, rest := polls[0], polls[1..];
      var t := Tick(s, p);
      var head, tail := TickLines(s, p), RunLines(t, rest);
      assert RunLines(s, polls) == head + tail;
      ConnectionLinesConcat(head, tail);
      ConnectionLinesAreEdges(t, rest);
      TickConnectionLines(s, p);
      EdgesStep(s.isConnected, polls);
    }
  }

  /** The edges of a run of polls: the first poll's, then the rest's. */
  lemma EdgesStep(prev: bool, polls: seq<ReporterStatus>)
    requires polls != []
    ensures Edges(prev, ConnectedFlags(polls))
            == (if polls[0].isConnected != prev then 1 else 0) + Edges(polls[0].isConnected, ConnectedFlags(polls[1..]))
  {
    var flags := ConnectedFlags(polls);
    assert flags[1..] == ConnectedFlags(polls[1..]);
  }

  /** The same error polled any number of times is logged at most once. */
  lemma {:induction false} RepeatedErrorLoggedOnce(s: TickState, polls: seq<ReporterStatus>, e: string)
    requires polls != []
    requires forall i :: 0 <= i < |polls| ==> polls[i].lastError == Some(e)
    ensures multiset(RunLines(s, polls))[LogEntry(ErrorPrefix + e, Error)] == if s.lastError == Some(e) then 0 else 1
    decreases |polls|
  {
    var p := polls[0];
    var line := LogEntry(ErrorPrefix + e, Error);
    assert multiset(TickLines(s, p))[line] == if s.lastError == Some(e) then 0 else 1;
    if |polls| > 1 {
      RepeatedErrorLoggedOnce(Tick(s, p), polls[1..], e);
    } else {
      assert RunLines(s, polls) == TickLines(s, p) + [];
    }
  }

  /** Polls without an error never clear the stored error. */
  lemma {:induction false} NoErrorKeepsLastError(s: TickState, polls: seq<ReporterStatus>)
    requires forall i :: 0 <= i < |polls| ==> polls[i].lastError.None?
    ensures RunTicks(s, polls).lastError == s.lastError
    decreases |polls|
  {
    if polls != [] {
      NoErrorKeepsLastError(Tick(s, polls[0]), polls[1..]);
    }
  }

  /** What the bridge hands the library in one call: the copies `made`
      reach the library, as `call`, exactly when both copies succeed, and
      then `call` comes after the two copies and before the two frees. */
  predicate CallsWith(made: seq<SwiftCall>, wsDup: bool, tokDup: bool, call: SwiftCall)
  {
    (NativeCalled(made) <==> wsDup && tokDup) && (wsDup && tokDup ==> |made| == 5 && made[2] == call)
  }

  /** Native results a `saveConfig` sees: both copies, and the answer. */
  datatype SaveOutcome = SaveOutcome(wsDup: bool, tokDup: bool, saved: bool) {
    predicate Succeeds() { wsDup && tokDup && saved }
    /** The bridge's copies leave the URL copy unfreed. */
    predicate LeaksUrlCopy() { SwiftBridge.LeaksUrlCopy(wsDup, tokDup) }
  }

  /** Native results a `startReporter` sees: both copies, and the handle. */
  datatype StartOutcome = StartOutcome(wsDup: bool, tokDup: bool, handle: RawPointer) {
    predicate Succeeds() { wsDup && tokDup && handle != NullPointer }
    /** The bridge's copies leave the URL copy unfreed. */
    predicate LeaksUrlCopy() { SwiftBridge.LeaksUrlCopy(wsDup, tokDup) }
  }

  class ContentView {
    var config: ReporterConfig
    var reporterHandle: Option<RawPointer>
    var isRunning: bool
    var isConnected: bool
    var statusMessage: string
    var lastError: Option<string>
    var showAlert: bool
    var alertMessage: string
    var logs: seq<LogEntry>
    /** The last `(isRunning, isConnected)` shown in the status bar. */
    var statusBar: Option<(bool, bool)>
    /** Native calls made through the bridge, oldest first. */
    ghost var calls: seq<SwiftCall>

    ghost predicate Valid()
      reads this
    {
      |logs| <= MaxLogs && (isRunning <==> reporterHandle.Some?) && (!isRunning ==> !isConnected)
    }

    function TickView(): TickState
      reads this
    {
      TickState(isConnected, statusMessage, lastError)
    }

    constructor ()
      ensures Valid() && !isRunning && reporterHandle == None && logs == [] && calls == []
      ensures statusMessage == "Stopped"
    {
      config := ReporterConfig(false, "", "");
      reporterHandle := None;
      isRunning, isConnected := false, false;
      statusMessage := "Stopped";
      lastError := None;
      showAlert, alertMessage := false, "";
      logs := [];
      statusBar := None;
      calls := [];
    }

    /** `addLog`: the entry goes last; beyond 500 the oldest are removed. */
    method AddLog(message: string, level: LogLevel)
      modifies this`logs
      ensures logs == AppendCapped(old(logs), LogEntry(message, level), MaxLogs)
    {
      logs := logs + [LogEntry(message, level)];
      if |logs| > MaxLogs {
        logs := logs[|logs| - MaxLogs..];
      }
    }

    /** `loadConfig`: a stored config replaces the form and is announced;
        otherwise a warning is logged. */
    method LoadConfig(loaded: Option<NativeConfig>)
      requires Valid()
      requires loaded.Some? ==> 0 in loaded.value.wsUrl && 0 in loaded.value.token
      modifies this`config, this`statusMessage, this`logs, this`calls
      ensures Valid()
      ensures loaded.Some? ==>
        config == DecodeConfig(loaded.value) && statusMessage == "Config loaded"
        && logs == AppendCapped(old(logs), LogEntry("Configuration loaded", Info), MaxLogs)
      ensures loaded.None? ==>
        config == old(config) && statusMessage == "No config found"
        && logs == AppendCapped(old(logs), LogEntry("No existing configuration found", Warning), MaxLogs)
    {
      var cfg, made := SwiftBridge.LoadConfig(loaded);
      calls := calls + made;
      if cfg.Some? {
        config := cfg.value;
        statusMessage := "Config loaded";
        AddLog("Configuration loaded", Info);
      } else {
        statusMessage := "No config found";
        AddLog("No existing configuration found", Warning);
      }
    }

    /** `saveConfig`: success is announced; failure raises an alert and logs
        an error. Every copy the bridge makes is freed unless the URL copy
        leaks. */
    method SaveConfig(save: SaveOutcome) returns (ok: bool)
      requires Valid()
      modifies this`statusMessage, this`alertMessage, this`showAlert, this`logs, this`calls
      ensures Valid()
      ensures ok == save.Succeeds()
      ensures ok ==>
        statusMessage == "Config saved" && showAlert == old(showAlert)
        && logs == AppendCapped(old(logs), LogEntry("Configuration saved", Info), MaxLogs)
      ensures !ok ==>
        showAlert && alertMessage == "Failed to save configuration" && statusMessage == old(statusMessage)
        && logs == AppendCapped(old(logs), LogEntry("Failed to save configuration", Error), MaxLogs)
      ensures old(calls) <= calls && !Starts(calls[|old(calls)|..])
      ensures CallsWith(calls[|old(calls)|..], save.wsDup, save.tokDup, ConfigSave(Marshal(config)))
      ensures Balanced(calls[|old(calls)|..]) <==> !save.LeaksUrlCopy()
    {
      ok := BridgeSave(save);
      ShowSaveOutcome(ok);
    }

    /** What `saveConfig` shows for the bridge's answer. */
    method ShowSaveOutcome(saved: bool)
      requires |logs| <= MaxLogs
      modifies this`statusMessage, this`alertMessage, this`showAlert, this`logs
      ensures |logs| <= MaxLogs
      ensures saved ==>
        statusMessage == "Config saved" && showAlert == old(showAlert)
        && logs == AppendCapped(old(logs), LogEntry("Configuration saved", Info), MaxLogs)
      ensures !saved ==>
        showAlert && alertMessage == "Failed to save configuration" && statusMessage == old(statusMessage)
        && logs == AppendCapped(old(logs), LogEntry("Failed to save configuration", Error), MaxLogs)
    {
      if saved {
        statusMessage := "Config saved";
        AddLog("Configuration saved", Info);
      } else {
        alertMessage := "Failed to save configuration";
        showAlert := true;
        AddLog("Failed to save configuration", Error);
      }
    }

    /** `startReporter`. A failed save starts nothing. A nil handle raises
        an alert and logs an error, leaving the running state alone; any
        other handle is stored and the reporter shows as starting. */
    method StartReporter(save: SaveOutcome, start: StartOutcome)
      requires Valid()
      modifies this`statusMessage, this`alertMessage, this`showAlert, this`logs, this`calls
      modifies this`reporterHandle, this`isRunning, this`statusBar
      ensures Valid()
      ensures old(calls) <= calls
      ensures Balanced(calls[|old(calls)|..]) <==> !save.LeaksUrlCopy() && !(save.Succeeds() && start.LeaksUrlCopy())
      ensures !save.Succeeds() ==> CallsWith(calls[|old(calls)|..], save.wsDup, save.tokDup, ConfigSave(Marshal(config)))
      ensures save.Succeeds() ==>
        |calls| >= |old(calls)| + 5 && CallsWith(calls[|old(calls)|..|old(calls)| + 5], true, true, ConfigSave(Marshal(config)))
        && CallsWith(calls[|old(calls)| + 5..], start.wsDup, start.tokDup, ReporterStart(Marshal(config)))
      ensures !save.Succeeds() ==>
        reporterHandle == old(reporterHandle) && isRunning == old(isRunning) && !Starts(calls[|old(calls)|..])
        && showAlert && alertMessage == "Failed to save configuration" && statusMessage == old(statusMessage)
        && logs == AppendCapped(old(logs), LogEntry("Failed to save configuration", Error), MaxLogs)
      ensures save.Succeeds() && !start.Succeeds() ==>
        reporterHandle == old(reporterHandle) && isRunning == old(isRunning) && showAlert
        && alertMessage == "Failed to start reporter. Please check your configuration."
        && statusMessage == "Config saved"
        && logs == AppendCapped(AppendCapped(old(logs), LogEntry("Configuration saved", Info), MaxLogs),
                                LogEntry("Failed to start reporter", Error), MaxLogs)
      ensures save.Succeeds() && start.Succeeds() ==>
        reporterHandle == Some(start.handle) && isRunning && statusMessage == "Starting..."
        && logs == AppendCapped(AppendCapped(old(logs), LogEntry("Configuration saved", Info), MaxLogs),
                                LogEntry("Reporter started", Info), MaxLogs)
        && statusBar == Some((true, isConnected))
    {
      var ok := SaveConfig(save);
      if !ok {
        return;
      }
      ghost var afterSave := calls;
      LaunchReporter(start);
      BalancedExtension(old(calls), afterSave, calls);
      assert calls[|old(calls)|..|old(calls)| + 5] == afterSave[|old(calls)|..];
      assert calls[|old(calls)| + 5..] == calls[|afterSave|..];
    }

    /** The second half of `startReporter`, once the config is saved: the
        bridge is asked for a handle; nil raises an alert, anything else is
        stored. */
    method LaunchReporter(start: StartOutcome)
      requires Valid()
      modifies this`statusMessage, this`alertMessage, this`showAlert, this`logs, this`calls
      modifies this`reporterHandle, this`isRunning, this`statusBar
      ensures Valid()
      ensures old(calls) <= calls
      ensures CallsWith(calls[|old(calls)|..], start.wsDup, start.tokDup, ReporterStart(Marshal(config)))
      ensures Balanced(calls[|old(calls)|..]) <==> !start.LeaksUrlCopy()
      ensures !start.Succeeds() ==>
        reporterHandle == old(reporterHandle) && isRunning == old(isRunning) && showAlert
        && alertMessage == "Failed to start reporter. Please check your configuration."
        && statusMessage == old(statusMessage)
        && logs == AppendCapped(old(logs), LogEntry("Failed to start reporter", Error), MaxLogs)
      ensures start.Succeeds() ==>
        reporterHandle == Some(start.handle) && isRunning && statusMessage == "Starting..."
        && logs == AppendCapped(old(logs), LogEntry("Reporter started", Info), MaxLogs)
        && statusBar == Some((true, isConnected))
    {
      var handle := BridgeStart(start);
      if handle.None? {
        ShowStartFailure();
      } else {
        ShowStarted(handle.value);
      }
    }

    /** A nil handle: the alert is raised and an error logged. */
    method ShowStartFailure()
      modifies this`alertMessage, this`showAlert, this`logs
      ensures showAlert && alertMessage == "Failed to start reporter. Please check your configuration."
      ensures logs == AppendCapped(old(logs), LogEntry("Failed to start reporter", Error), MaxLogs)
    {
      alertMessage := "Failed to start reporter. Please check your configuration.";
      showAlert := true;
      AddLog("Failed to start reporter", Error);
    }

    /** A handle: stored, and the view shows the reporter starting. */
    method ShowStarted(handle: RawPointer)
      requires Valid()
      modifies this`reporterHandle, this`isRunning, this`statusMessage, this`logs, this`statusBar
      ensures Valid()
      ensures reporterHandle == Some(handle) && isRunning && statusMessage == "Starting..."
      ensures logs == AppendCapped(old(logs), LogEntry("Reporter started", Info), MaxLogs)
      ensures statusBar == Some((true, isConnected)) && isConnected == old(isConnected)
    {
      reporterHandle := Some(handle);
      isRunning := true;
      statusMessage := "Starting...";
      AddLog("Reporter started", Info);
      UpdateStatusBar();
    }

    /** The bridge's `saveConfig` on the form's config; the copies it
        makes are all freed unless the URL copy leaks, and nothing is
        started. */
    method BridgeSave(save: SaveOutcome) returns (saved: bool)
      modifies this`calls
      ensures saved == save.Succeeds()
      ensures old(calls) <= calls && !Starts(calls[|old(calls)|..])
      ensures CallsWith(calls[|old(calls)|..], save.wsDup, save.tokDup, ConfigSave(Marshal(config)))
      ensures Balanced(calls[|old(calls)|..]) <==> !save.LeaksUrlCopy()
    {
      var made;
      saved, made := SwiftBridge.SaveConfig(config, save.wsDup, save.tokDup, save.saved);
      calls := calls + made;
      assert calls[|old(calls)|..] == made;
    }

    /** The bridge's `startReporter` on the form's config; the copies it
        makes are all freed unless the URL copy leaks. */
    method BridgeStart(start: StartOutcome) returns (handle: Option<RawPointer>)
      modifies this`calls
      ensures handle.Some? <==> start.Succeeds()
      ensures handle.Some? ==> handle.value == start.handle
      ensures old(calls) <= calls
      ensures CallsWith(calls[|old(calls)|..], start.wsDup, start.tokDup, ReporterStart(Marshal(config)))
      ensures Balanced(calls[|old(calls)|..]) <==> !start.LeaksUrlCopy()
    {
      var made;
      handle, made := SwiftBridge.StartReporter(config, start.wsDup, start.tokDup, start.handle);
      calls := calls + made;
      assert calls[|old(calls)|..] == made;
    }

    /** `stopReporter`: stop is called only when a handle is stored; the
        view always ends stopped, with no handle and no error. */
    method StopReporter(stopped: bool)
      requires Valid()
      modifies this`reporterHandle, this`isRunning, this`isConnected, this`statusMessage, this`lastError
      modifies this`logs, this`calls, this`statusBar
      ensures Valid()
      ensures reporterHandle == None && !isRunning && !isConnected && lastError == None
      ensures statusMessage == "Stopped"
      ensures logs == AppendCapped(old(logs), LogEntry("Reporter stopped", Info), MaxLogs)
      ensures old(reporterHandle).Some? ==> calls == old(calls) + [ReporterStop(old(reporterHandle).value)]
      ensures old(reporterHandle).None? ==> calls == old(calls)
      ensures statusBar == Some((false, false))
    {
      ReleaseHandle();
      isRunning := false;
      isConnected := false;
      statusMessage := "Stopped";
      lastError := None;
      AddLog("Reporter stopped", Info);
      UpdateStatusBar();
    }

    /** The first half of `stopReporter`: a stored handle is stopped (the
        answer is discarded) and dropped. */
    method ReleaseHandle()
      modifies this`reporterHandle, this`calls
      ensures reporterHandle == None
      ensures old(reporterHandle).Some? ==> calls == old(calls) + [ReporterStop(old(reporterHandle).value)]
      ensures old(reporterHandle).None? ==> calls == old(calls)
    {
      if reporterHandle.Some? {
        calls := calls + [ReporterStop(reporterHandle.value)];
        reporterHandle := None;
      }
    }

    /** `toggleReporter`. */
    method ToggleReporter(save: SaveOutcome, start: StartOutcome, stopped: bool)
      requires Valid()
      modifies this`statusMessage, this`alertMessage, this`showAlert, this`logs, this`calls
      modifies this`reporterHandle, this`isRunning, this`isConnected, this`lastError, this`statusBar
      ensures Valid()
      ensures old(isRunning) ==> !isRunning && reporterHandle == None
      ensures !old(isRunning) ==> (isRunning <==> save.Succeeds() && start.Succeeds())
    {
      if isRunning {
        StopReporter(stopped);
      } else {
        StartReporter(save, start);
      }
    }

    /** `updateStatus`: nothing unless running with a handle; otherwise the
        state moves as `Tick` says on the status `getStatus` decodes, and
        the lines `TickLines` gives are logged in order. */
    method UpdateStatus(native: NativeStatus)
      requires Valid()
      requires native.lastError.Some? ==> 0 in native.lastError.value
      modifies this`isConnected, this`statusMessage, this`lastError, this`logs, this`statusBar
      ensures Valid()
      ensures !old(isRunning) ==> TickView() == old(TickView()) && logs == old(logs) && statusBar == old(statusBar)
      ensures old(isRunning) ==>
        TickView() == Tick(old(TickView()), GetStatus(native))
        && logs == AppendAllCapped(old(logs), TickLines(old(TickView()), GetStatus(native)), MaxLogs)
        && statusBar == Some((true, isConnected))
    {
      if !isRunning || reporterHandle.None? {
        return;
      }
      var status := GetStatus(native);
      ApplyStatus(status);
      UpdateStatusBar();
    }

    /** One poll's answer applied to the view, as `Tick` and `TickLines`
        say. */
    method ApplyStatus(status: ReporterStatus)
      requires |logs| <= MaxLogs
      modifies this`isConnected, this`statusMessage, this`lastError, this`logs
      ensures |logs| <= MaxLogs
      ensures TickView() == Tick(old(TickView()), status)
      ensures logs == AppendAllCapped(old(logs), TickLines(old(TickView()), status), MaxLogs)
    {
      ghost var before := TickView();
      var wasConnected := isConnected;
      isConnected := status.isConnected;
      statusMessage := if status.isConnected then "Connected" else "Connecting...";
      ghost var lines := LogNewError(status);
      assert TickView() == Tick(before, status);
      if status.isConnected != wasConnected {
        var line := if status.isConnected then ConnectedLine else DisconnectedLine;
        ghost var logged := logs;
        AddLog(line, Info);
        AppendAllCappedSnoc(old(logs), lines, LogEntry(line, Info), MaxLogs);
        assert logs == AppendCapped(logged, LogEntry(line, Info), MaxLogs);
        lines := lines + [LogEntry(line, Info)];
      }
      assert lines == TickLines(before, status);
    }

    /** The error step of a poll: a new error is stored and logged.
        `lines` are the entries it logs. */
    method LogNewError(status: ReporterStatus) returns (ghost lines: seq<LogEntry>)
      requires |logs| <= MaxLogs
      modifies this`lastError, this`logs
      ensures |logs| <= MaxLogs
      ensures lines == if NewError(old(lastError), status) then [LogEntry(ErrorPrefix + status.lastError.value, Error)] else []
      ensures lastError == if NewError(old(lastError), status) then status.lastError else old(lastError)
      ensures logs == AppendAllCapped(old(logs), lines, MaxLogs)
    {
      lines := [];
      if status.lastError.Some? && status.lastError != lastError {
        lastError := status.lastError;
        AddLog(ErrorPrefix + status.lastError.value, Error);
        lines := [LogEntry(ErrorPrefix + status.lastError.value, Error)];
      }
    }

    /** `updateStatusBar`. */
    method UpdateStatusBar()
      modifies this`statusBar
      ensures statusBar == Some((isRunning, isConnected))
    {
      statusBar := Some((isRunning, isConnected));
    }
  }

  /** Two extensions of a call list in a row, one of them balanced, make a
      balanced extension exactly when both are. */
  lemma BalancedExtension(c0: seq<SwiftCall>, c1: seq<SwiftCall>, c2: seq<SwiftCall>)
    requires c0 <= c1 <= c2 && (Balanced(c1[|c0|..]) || Balanced(c2[|c1|..]))
    ensures Balanced(c2[|c0|..]) <==> Balanced(c1[|c0|..]) && Balanced(c2[|c1|..])
  {
    BalancedAppend(c1[|c0|..], c2[|c1|..]);
    assert c2[|c0|..] == c1[|c0|..] + c2[|c1|..];
  }

  /** Appending one more entry after a run of appends. */
  lemma {:induction false} AppendAllCappedSnoc<T>(log: seq<T>, xs: seq<T>, x: T, n: nat)
    ensures AppendAllCapped(log, xs + [x], n) == AppendCapped(AppendAllCapped(log, xs, n), x, n)
    decreases |xs|
  {
    if xs == [] {
      assert xs + [x] == [x];
    } else {
      assert (xs + [x])[1..] == xs[1..] + [x];
      AppendAllCappedSnoc(AppendCapped(log, xs[0], n), xs[1..], x, n);
    }
  }
}
