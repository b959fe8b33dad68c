/** The worker library's C entry points for the reporter lifecycle. The
    library keeps one global slot holding the running reporter, or nothing;
    every entry point reads or writes that slot. The reporter's own work
    (the WebSocket client, capture threads) is not modelled: its connection
    state is a parameter of the call that reads it. */
module FfiReporter {
  import opened Common
  import opened NativeMethods

  /** An opaque reporter handle as the C caller sees it; 0 is the null pointer. */
  type Handle = nat

  const NullHandle: Handle := 0

  /** The handle `sm_reporter_start` returns: a pointer to a boxed unit
      value. Such a box owns no memory, so the pointer is the same non-null
      dangling address on every start; callers may treat it only as a token. */
  const RunningToken: Handle := 1

  /** Identity of a foreign function pointer passed in by the caller. */
  type CallbackId = nat

  datatype Registration = Registration(callback: CallbackId, userData: nat)

  /** The worker's configuration, decoded from the caller's `SmConfig`. */
  datatype ReporterConfig = ReporterConfig(enabled: bool, wsUrl: string, token: string, enableMediaReporting: bool)

  /** A running reporter as far as the entry points see it: the
      configuration it was built from and the callbacks registered on it. */
  datatype Worker = Worker(
    config: ReporterConfig,
    logCallback: Option<Registration>,
    windowCallback: Option<Registration>,
    mediaCallback: Option<Registration>)

  /** A pointer `CStr::from_ptr` may read: non-null, with a terminator
      inside the readable block. */
  predicate IsCStr(p: array?<byte>)
    reads p
  {
    p != null && 0 in p[..]
  }

  /** The configuration `sm_reporter_start` reads out of a valid `SmConfig`. */
  function DecodeConfig(c: SmConfig): (r: ReporterConfig)
    requires IsCStr(c.wsUrl) && IsCStr(c.token)
    reads c.wsUrl, c.token
    ensures r.enabled == c.enabled && r.enableMediaReporting == c.enableMediaReporting
    ensures Some(r.wsUrl) == CString(c.wsUrl[..]) && Some(r.token) == CString(c.token[..])
  {
    ReporterConfig(c.enabled, CString(c.wsUrl[..]).value, CString(c.token[..]).value, c.enableMediaReporting)
  }

  /** The slot transition of `sm_reporter_start`, given the decoded
      configuration (none for a null config pointer): a worker is created
      only when a configuration is given and the slot is empty, and the
      caller gets a non-null handle exactly then. */
  function StartTransition(slot: Option<Worker>, config: Option<ReporterConfig>): (r: (Option<Worker>, Handle))
    ensures r.1 != NullHandle <==> config.Some? && slot.None?
    ensures r.1 == NullHandle ==> r.0 == slot
    ensures r.1 != NullHandle ==> r.1 == RunningToken && r.0 == Some(Worker(config.value, None, None, None))
  {
    if config.None? || slot.Some? then (slot, NullHandle)
    else (Some(Worker(config.value, None, None, None)), RunningToken)
  }

  /** A second start in a row is refused and keeps the first worker. */
  lemma SecondStartRefused(slot: Option<Worker>, c: ReporterConfig, d: ReporterConfig)
    requires slot.None?
    ensures StartTransition(StartTransition(slot, Some(c)).0, Some(d)) == (Some(Worker(c, None, None, None)), NullHandle)
  {
  }

  /** The library's global state. */
  class ReporterLibrary {
    /** `GLOBAL_REPORTER`. */
    var slot: Option<Worker>
    /** The process environment variable `ENABLE_MEDIA_REPORTING`. */
    var mediaReportingEnv: Option<string>

    constructor ()
      ensures slot == None && mediaReportingEnv == None
    {
      slot := None;
      mediaReportingEnv := None;
    }

    /** `sm_reporter_start`. A null config (`None`) or an occupied slot gives
        a null handle and changes nothing; otherwise the environment flag is
        set from the config, a worker fills the slot and the token is
        returned. */
    method Start(config: Option<SmConfig>) returns (handle: Handle)
      requires config.Some? ==> IsCStr(config.value.wsUrl) && IsCStr(config.value.token)
      modifies this
      ensures var decoded := if config.None? then None else Some(DecodeConfig(config.value));
        (slot, handle) == StartTransition(old(slot), decoded)
      ensures handle == NullHandle ==> mediaReportingEnv == old(mediaReportingEnv)
      ensures handle != NullHandle ==>
        mediaReportingEnv == Some(if config.value.enableMediaReporting then "1" else "0")
    {
      if config.None? {
        return NullHandle;
      }
      if slot.Some? {
        return NullHandle;
      }
      var cfg := DecodeConfig(config.value);
      mediaReportingEnv := Some(if cfg.enableMediaReporting then "1" else "0");
      slot := Some(Worker(cfg, None, None, None));
      handle := RunningToken;
    }

    /** `sm_reporter_stop`: the handle is ignored; an occupied slot is
        emptied and true returned, an empty one gives false. */
    method Stop(handle: Handle) returns (stopped: bool)
      modifies this`slot
      ensures stopped == old(slot).Some?
      ensures slot == None
    {
      stopped := slot.Some?;
      slot := None;
    }

    /** `sm_reporter_get_status`: the handle is ignored; `connected` is what
        the stored reporter answers when asked. No error is ever reported. */
    method GetStatus(handle: Handle, connected: bool) returns (status: SmStatus)
      ensures status.isRunning == slot.Some?
      ensures status.isConnected == (slot.Some? && connected)
      ensures status.lastError == null
    {
      status := SmStatus(slot.Some?, slot.Some? && connected, null);
    }

    /** `sm_reporter_is_running`. */
    method IsRunning() returns (running: bool)
      ensures running == slot.Some?
    {
      running := slot.Some?;
    }

    /** `sm_reporter_set_log_callback`: registers on the stored reporter;
        with none stored nothing is registered anywhere. */
    method SetLogCallback(callback: CallbackId, userData: nat)
      modifies this`slot
      ensures old(slot).None? ==> slot == None
      ensures old(slot).Some? ==> slot == Some(old(slot).value.(logCallback := Some(Registration(callback, userData))))
    {
      if slot.Some? {
        slot := Some(slot.value.(logCallback := Some(Registration(callback, userData))));
      }
    }

    /** `sm_reporter_set_window_callback`. */
    method SetWindowCallback(callback: CallbackId, userData: nat)
      modifies this`slot
      ensures old(slot).None? ==> slot == None
      ensures old(slot).Some? ==> slot == Some(old(slot).value.(windowCallback := Some(Registration(callback, userData))))
    {
      if slot.Some? {
        slot := Some(slot.value.(windowCallback := Some(Registration(callback, userData))));
      }
    }

    /** `sm_reporter_set_media_callback`. */
    method SetMediaCallback(callback: CallbackId, userData: nat)
      modifies this`slot
      ensures old(slot).None? ==> slot == None
      ensures old(slot).Some? ==> slot == Some(old(slot).value.(mediaCallback := Some(Registration(callback, userData))))
    {
      if slot.Some? {
        slot := Some(slot.value.(mediaCallback := Some(Registration(callback, userData))));
      }
    }
  }
}
