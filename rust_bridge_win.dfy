/** The Windows shell's bridge service to the worker library. It holds the
    reporter handle, a gate that suppresses UI updates while the window is
    hidden, the delegates handed to the library, and the four `On*`
    subscriber actions.

    Every native call is a step of an abstract worker: its result is a
    parameter of the bridge method that makes it, and the call itself is
    recorded in the ghost `trace`, so that the contracts can say which calls
    a method makes and that each string it copies out is freed. A `Fault`
    parameter says whether, and where, the body of a `try` throws. */
module RustBridgeWin {
  import opened Common
  import opened NativeMethods
  import Utf8

  /** An `IntPtr` reporter handle; 0 is `IntPtr.Zero`. */
  type Handle = nat

  const NullHandle: Handle := 0

  /** `ReporterConfig` (its setters turn null strings into ""). */
  datatype ReporterConfig = ReporterConfig(enabled: bool, wsUrl: string, token: string, enableMediaReporting: bool)

  /** `ReporterStatus`. */
  datatype ReporterStatus = ReporterStatus(isRunning: bool, isConnected: bool, lastError: Option<string>)

  /** A decoded bitmap; the decoder itself is not modelled, only the bytes it got. */
  datatype Image = Image(bytes: seq<byte>)

  /** A double carried through unchanged. */
  type Float = real

  datatype WindowData = WindowData(title: string, processName: string, pid: nat, icon: Option<Image>)

  datatype MediaData = MediaData(
    title: string, artist: string, album: string,
    duration: Float, elapsedTime: Float, playing: bool, artwork: Option<Image>)

  /** What a subscriber action was handed, in the order handed over. */
  datatype Update =
    | LogUpdate(level: LogLevel, message: string)
    | WindowUpdate(window: WindowData)
    | MediaUpdate(media: MediaData)
    | ClearStateUpdate

  /** Which managed method a delegate passed to the library wraps. */
  datatype CallbackKind = Wrapper | Dummy

  /** Where the `try` body of a marshalling call throws. */
  datatype Fault =
    | NoFault
    /** Allocating the native struct fails: no native call is made. */
    | AllocFails
    /** The native entry point throws: the call has no effect. */
    | NativeFails

  datatype NativeCall =
    | ConfigLoad
    | ConfigFree
    | ConfigSave(config: SmConfig)
    | ReporterStart(config: SmConfig)
    | ReporterStop(handle: Handle)
    | ReporterGetStatus(handle: Handle)
    | ReporterIsRunning
    | RegisterLog(kind: CallbackKind)
    | RegisterWindow(kind: CallbackKind)
    | RegisterMedia(kind: CallbackKind)
    /** A string copied to unmanaged memory (`AllocCoTaskMem`). */
    | AllocString(block: array<byte>)
    | FreeString(block: array<byte>)
    /** The block holding an `SmConfig` (`AllocHGlobal`/`FreeHGlobal`). */
    | AllocStruct
    | FreeStruct

  /** `p` is what `StringToPtrUTF8(s)` returns. */
  ghost predicate MarshalledAs(p: array?<byte>, s: string)
    reads p
  {
    (p == null <==> s == "") && (p != null ==> p[..] == Utf8.Encode(s) + [0])
  }

  ghost function Allocated(p: array?<byte>): seq<NativeCall>
  {
    if p == null then [] else [AllocString(p)]
  }

  ghost function Freed(p: array?<byte>): seq<NativeCall>
  {
    if p == null then [] else [FreeString(p)]
  }

  /** A call made with two marshalled strings: both are copied out, the
      `try` body runs, and the `finally` frees every copy that was made,
      whatever the body did. */
  ghost function WithStrings(ws: array?<byte>, tok: array?<byte>, body: seq<NativeCall>): seq<NativeCall>
  {
    Allocated(ws) + Allocated(tok) + body + Freed(ws) + Freed(tok)
  }

  /** The `try` body of SaveConfig and StartReporter: allocate the struct,
      make the native call, free the struct. A throwing native call skips
      the free of the struct. */
  ghost function StructCall(call: NativeCall, fault: Fault): seq<NativeCall>
  {
    match fault
    case NoFault => [AllocStruct, call, FreeStruct]
    case AllocFails => []
    case NativeFails => [AllocStruct]
  }

  /** The two entry points that take a marshalled `SmConfig`. */
  datatype Entry = Save | Start

  /** `before` extended to `after` by a call of `entry` with `config`
      marshalled: the strings copied out as `ws` and `tok`, the struct call,
      and the frees of the copies. */
  ghost predicate MarshalledCall(before: seq<NativeCall>, after: seq<NativeCall>, entry: Entry,
                                 config: ReporterConfig, fault: Fault, ws: array?<byte>, tok: array?<byte>)
    reads ws, tok
  {
    var native := SmConfig(config.enabled, ws, tok, config.enableMediaReporting);
    MarshalledAs(ws, config.wsUrl) && MarshalledAs(tok, config.token) &&
    after == before + WithStrings(ws, tok,
      StructCall(if entry == Save then ConfigSave(native) else ReporterStart(native), fault))
  }

  /** The string `PtrToStringUTF8` reads at `p`, or "" where it gives null. */
  function StringOrEmpty(p: array?<byte>): (s: string)
    reads p
    ensures p == null ==> s == ""
    ensures p != null && CString(p[..]).Some? ==> s == CString(p[..]).value
  {
    if p == null then "" else CString(p[..]).GetOr("")
  }

  /** `PtrToStringUTF8` as a value. */
  function StringAt(p: array?<byte>): (r: Option<string>)
    reads p
    ensures p == null ==> r == None
    ensures p != null ==> r == CString(p[..])
  {
    if p == null then None else CString(p[..])
  }

  const ArtworkLimit: nat := 2_000_000

  /** `GetArtworkImage`: no image for a null pointer, a zero size or more
      than 2,000,000 bytes; otherwise the image decoded from a copy of
      exactly `size` bytes, when the bytes decode. A `size` larger than the
      block gives no image; this abstracts the source's copy past the block
      (see "## Left out" in README.md). */
  method GetArtworkImage(data: array?<byte>, size: nat, decodes: bool) returns (image: Option<Image>)
    ensures data == null || size == 0 || size > ArtworkLimit ==> image == None
    ensures image.Some? ==> data != null && 0 < size <= ArtworkLimit && size <= data.Length
                            && image.value.bytes == data[..size]
    ensures image.Some? <==> data != null && 0 < size <= ArtworkLimit && size <= data.Length && decodes
  {
    if data == null || size == 0 {
      return None;
    }
    if size > ArtworkLimit {
      return None;
    }
    var buffer := PtrToByteArray(data, size);
    if buffer == null {
      return None;
    }
    if !decodes {
      return None;
    }
    image := Some(Image(buffer[..]));
  }

  class RustBridge {
    var logDelegate: Option<CallbackKind>
    var windowDelegate: Option<CallbackKind>
    var mediaDelegate: Option<CallbackKind>

    /** Whether each of `OnLog`, `OnWindowData`, `OnMediaData` and
        `OnClearState` is set. */
    var onLog: bool
    var onWindowData: bool
    var onMediaData: bool
    var onClearState: bool

    /** Everything handed to the subscriber actions, oldest first. */
    var handedOver: seq<Update>

    var reporterHandle: Handle
    var updatesEnabled: bool

    ghost var trace: seq<NativeCall>

    constructor ()
      ensures logDelegate == None && windowDelegate == None && mediaDelegate == None
      ensures !onLog && !onWindowData && !onMediaData && !onClearState
      ensures handedOver == [] && reporterHandle == NullHandle && updatesEnabled && trace == []
    {
      logDelegate, windowDelegate, mediaDelegate := None, None, None;
      onLog, onWindowData, onMediaData, onClearState := false, false, false, false;
      handedOver := [];
      reporterHandle := NullHandle;
      updatesEnabled := true;
      trace := [];
    }

    /** `LoadConfig`: `loaded` is the struct `sm_config_load` returned (none
        for a null pointer) and `readFails` whether reading it throws. A null
        pointer gives null; otherwise the struct is freed exactly once, on
        the success path and in the `catch`, and null strings read as "". */
    method LoadConfig(loaded: Option<SmConfig>, readFails: bool) returns (config: Option<ReporterConfig>)
      modifies this`trace
      ensures loaded.None? ==> config == None && trace == old(trace) + [ConfigLoad]
      ensures loaded.Some? ==> trace == old(trace) + [ConfigLoad, ConfigFree]
      ensures loaded.Some? && readFails ==> config == None
      ensures loaded.Some? && !readFails ==>
        config == Some(ReporterConfig(loaded.value.enabled, StringOrEmpty(loaded.value.wsUrl),
                                      StringOrEmpty(loaded.value.token), loaded.value.enableMediaReporting))
    {
      trace := trace + [ConfigLoad];
      if loaded.None? {
        return None;
      }
      var c := loaded.value;
      if readFails {
        trace := trace + [ConfigFree];
        return None;
      }
      var ws := PtrToStringUTF8(c.wsUrl);
      var tok := PtrToStringUTF8(c.token);
      config := Some(ReporterConfig(c.enabled, ws.GetOr(""), tok.GetOr(""), c.enableMediaReporting));
      trace := trace + [ConfigFree];
    }

    /** `SaveConfig`: `saved` is what `sm_config_save` answers. The result
        is true only when the native save ran and succeeded; every string
        copy is freed on every path. */
    method SaveConfig(config: ReporterConfig, saved: bool, fault: Fault) returns (ok: bool)
      modifies this`trace
      ensures ok == (fault == NoFault && saved)
      ensures exists ws: array?<byte>, tok: array?<byte> :: MarshalledCall(old(trace), trace, Save, config, fault, ws, tok)
    {
      var ws := StringToPtrUTF8(Some(config.wsUrl));
      var tok := StringToPtrUTF8(Some(config.token));
      var native := SmConfig(config.enabled, ws, tok, config.enableMediaReporting);
      ok := fault == NoFault && saved;
      // the copies, the `try` body and the `finally`, in that order
      trace := trace + WithStrings(ws, tok, StructCall(ConfigSave(native), fault));
      assert MarshalledCall(old(trace), trace, Save, config, fault, ws, tok);
    }

    /** `IsRunning`: asks the library; `running` is its answer. */
    method IsRunning(running: bool) returns (r: bool)
      modifies this`trace
      ensures r == running && trace == old(trace) + [ReporterIsRunning]
    {
      trace := trace + [ReporterIsRunning];
      r := running;
    }

    /** `StartReporter`: `running` is the library's `is_running` answer and
        `handle` what `sm_reporter_start` returns. When the worker already
        runs nothing is started and false is returned. Otherwise the handle
        is stored and true returned exactly when it is non-null; every
        string copy is freed on every path. */
    method StartReporter(config: ReporterConfig, running: bool, handle: Handle, fault: Fault) returns (ok: bool)
      modifies this`trace, this`reporterHandle
      ensures running ==> !ok && reporterHandle == old(reporterHandle) && trace == old(trace) + [ReporterIsRunning]
      ensures !running ==> ok == (fault == NoFault && handle != NullHandle)
      ensures !running ==> reporterHandle == if fault == NoFault then handle else old(reporterHandle)
      ensures !running ==> exists ws: array?<byte>, tok: array?<byte> ::
        MarshalledCall(old(trace) + [ReporterIsRunning], trace, Start, config, fault, ws, tok)
    {
      var already := IsRunning(running);
      if already {
        return false;
      }
      ghost var before := trace;
      var ws := StringToPtrUTF8(Some(config.wsUrl));
      var tok := StringToPtrUTF8(Some(config.token));
      var native := SmConfig(config.enabled, ws, tok, config.enableMediaReporting);
      if fault == NoFault {
        reporterHandle := handle;
        ok := reporterHandle != NullHandle;
      } else {
        ok := false;
      }
      // the copies, the `try` body and the `finally`, in that order
      trace := trace + WithStrings(ws, tok, StructCall(ReporterStart(native), fault));
      assert MarshalledCall(before, trace, Start, config, fault, ws, tok);
    }

    /** `StopReporter`: `stopped` is what `sm_reporter_stop` answers. With no
        handle nothing is called and false returned; otherwise the library
        is told to stop once and the handle is zeroed whatever it answers. */
    method StopReporter(stopped: bool) returns (ok: bool)
      modifies this`trace, this`reporterHandle
      ensures old(reporterHandle) == NullHandle ==> !ok && trace == old(trace)
      ensures old(reporterHandle) != NullHandle ==>
        ok == stopped && trace == old(trace) + [ReporterStop(old(reporterHandle))]
      ensures reporterHandle == NullHandle
    {
      if reporterHandle == NullHandle {
        return false;
      }
      trace := trace + [ReporterStop(reporterHandle)];
      ok := stopped;
      reporterHandle := NullHandle;
    }

    /** `GetStatus`: `native` is what `sm_reporter_get_status` returns. With
        no handle the library is not asked and the status is all off; with
        one the flags are copied and the error pointer decoded, null giving
        no error. */
    method GetStatus(native: SmStatus) returns (status: ReporterStatus)
      modifies this`trace
      ensures reporterHandle == NullHandle ==>
        status == ReporterStatus(false, false, None) && trace == old(trace)
      ensures reporterHandle != NullHandle ==>
        status == ReporterStatus(native.isRunning, native.isConnected, StringAt(native.lastError))
        && trace == old(trace) + [ReporterGetStatus(reporterHandle)]
    {
      if reporterHandle == NullHandle {
        return ReporterStatus(false, false, None);
      }
      trace := trace + [ReporterGetStatus(reporterHandle)];
      var err := PtrToStringUTF8(native.lastError);
      status := ReporterStatus(native.isRunning, native.isConnected, err);
    }

    /** `SetLogCallback`: keep the wrapper delegate alive and hand it over. */
    method SetLogCallback()
      modifies this`logDelegate, this`trace
      ensures logDelegate == Some(Wrapper) && trace == old(trace) + [RegisterLog(Wrapper)]
    {
      logDelegate := Some(Wrapper);
      trace := trace + [RegisterLog(Wrapper)];
    }

    /** `SetWindowCallback`. */
    method SetWindowCallback()
      modifies this`windowDelegate, this`trace
      ensures windowDelegate == Some(Wrapper) && trace == old(trace) + [RegisterWindow(Wrapper)]
    {
      windowDelegate := Some(Wrapper);
      trace := trace + [RegisterWindow(Wrapper)];
    }

    /** `SetMediaCallback`. */
    method SetMediaCallback()
      modifies this`mediaDelegate, this`trace
      ensures mediaDelegate == Some(Wrapper) && trace == old(trace) + [RegisterMedia(Wrapper)]
    {
      mediaDelegate := Some(Wrapper);
      trace := trace + [RegisterMedia(Wrapper)];
    }

    /** `ClearCallbacks`: the library gets do-nothing delegates in place of
        the wrappers, and all four subscriber actions are unset. */
    method ClearCallbacks()
      modifies this`logDelegate, this`windowDelegate, this`mediaDelegate, this`trace
      modifies this`onLog, this`onWindowData, this`onMediaData, this`onClearState
      ensures logDelegate == Some(Dummy) && windowDelegate == Some(Dummy) && mediaDelegate == Some(Dummy)
      ensures trace == old(trace) + [RegisterLog(Dummy), RegisterWindow(Dummy), RegisterMedia(Dummy)]
      ensures !onLog && !onWindowData && !onMediaData && !onClearState
    {
      logDelegate, windowDelegate, mediaDelegate := Some(Dummy), Some(Dummy), Some(Dummy);
      trace := trace + [RegisterLog(Dummy), RegisterWindow(Dummy), RegisterMedia(Dummy)];
      onLog, onWindowData, onMediaData, onClearState := false, false, false, false;
    }

    /** `SetUpdatesEnabled`: set the gate; closing it asks the subscriber,
        if any, to clear its state, once per call. */
    method SetUpdatesEnabled(enabled: bool)
      modifies this`updatesEnabled, this`handedOver
      ensures updatesEnabled == enabled
      ensures handedOver == old(handedOver) + (if !enabled && onClearState then [ClearStateUpdate] else [])
    {
      updatesEnabled := enabled;
      if !enabled && onClearState {
        handedOver := handedOver + [ClearStateUpdate];
      }
    }

    /** `LogCallbackWrapper`: while the gate is open, a message that decodes
        is handed to `OnLog`; a null message is dropped. */
    method LogCallbackWrapper(level: LogLevel, message: array?<byte>)
      modifies this`handedOver
      ensures !updatesEnabled || !onLog || StringAt(message).None? ==> handedOver == old(handedOver)
      ensures updatesEnabled && onLog && StringAt(message).Some? ==>
        handedOver == old(handedOver) + [LogUpdate(level, StringAt(message).value)]
    {
      if !updatesEnabled {
        return;
      }
      var msg := PtrToStringUTF8(message);
      if msg.Some? && onLog {
        handedOver := handedOver + [LogUpdate(level, msg.value)];
      }
    }

    /** `WindowCallbackWrapper`: while the gate is open, the window is handed
        to `OnWindowData` with "Unknown" for each string that reads as null.
        No icon is ever fetched. */
    method WindowCallbackWrapper(title: array?<byte>, processName: array?<byte>, pid: nat)
      modifies this`handedOver
      ensures !updatesEnabled || !onWindowData ==> handedOver == old(handedOver)
      ensures updatesEnabled && onWindowData ==>
        handedOver == old(handedOver) + [WindowUpdate(WindowData(
          StringAt(title).GetOr("Unknown"), StringAt(processName).GetOr("Unknown"), pid, None))]
    {
      if !updatesEnabled {
        return;
      }
      var titleStr := PtrToStringUTF8(title);
      var processNameStr := PtrToStringUTF8(processName);
      var window := WindowData(titleStr.GetOr("Unknown"), processNameStr.GetOr("Unknown"), pid, None);
      if onWindowData {
        handedOver := handedOver + [WindowUpdate(window)];
      }
    }

    /** `MediaCallbackWrapper`: while the gate is open, the track is handed
        to `OnMediaData` with "Unknown" for each string that reads as null
        and the artwork `GetArtworkImage` yields; `decodes` says whether the
        artwork bytes form an image. */
    method MediaCallbackWrapper(title: array?<byte>, artist: array?<byte>, album: array?<byte>,
                                duration: Float, elapsedTime: Float, playing: bool,
                                artworkData: array?<byte>, artworkSize: nat, decodes: bool)
      modifies this`handedOver
      ensures !updatesEnabled || !onMediaData ==> handedOver == old(handedOver)
      ensures updatesEnabled && onMediaData ==>
        exists artwork: Option<Image> ::
          (artwork.Some? <==> artworkData != null && 0 < artworkSize <= ArtworkLimit
                              && artworkSize <= artworkData.Length && decodes) &&
          (artwork.Some? ==> artworkData != null && artworkSize <= artworkData.Length
                             && artwork.value.bytes == artworkData[..artworkSize]) &&
          handedOver == old(handedOver) + [MediaUpdate(MediaData(
            StringAt(title).GetOr("Unknown"), StringAt(artist).GetOr("Unknown"), StringAt(album).GetOr("Unknown"),
            duration, elapsedTime, playing, artwork))]
    {
      if !updatesEnabled {
        return;
      }
      var titleStr := PtrToStringUTF8(title);
      var artistStr := PtrToStringUTF8(artist);
      var albumStr := PtrToStringUTF8(album);
      var artwork := GetArtworkImage(artworkData, artworkSize, decodes);
      var media := MediaData(titleStr.GetOr("Unknown"), artistStr.GetOr("Unknown"), albumStr.GetOr("Unknown"),
                             duration, elapsedTime, playing, artwork);
      if onMediaData {
        handedOver := handedOver + [MediaUpdate(media)];
      }
    }
  }
}
