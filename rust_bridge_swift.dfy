/** The macOS shell's bridge to the worker library: static wrappers that
    copy strings out with `strdup`, pass a three-field `SmConfig` to the
    library, free the copies through `defer`, and decode what comes back.

    The library's answers (the loaded struct, the save result, the start
    handle, the status) are parameters, and so is whether each `strdup`
    succeeds. Every wrapper that touches native memory returns the list of
    boundary calls it made, so that the pairing of copies and frees can be
    stated. */
module SwiftBridge {
  import opened Common
  import Utf8
  import NativeMethods

  /** A raw pointer as an address; 0 is null. */
  type RawPointer = nat

  const NullPointer: RawPointer := 0

  /** `ReporterConfig` of the macOS shell (it has no media flag). */
  datatype ReporterConfig = ReporterConfig(enabled: bool, wsUrl: string, token: string)

  datatype ReporterStatus = ReporterStatus(isRunning: bool, isConnected: bool, lastError: Option<string>)

  /** The memory a native `SmConfig` points at: the flag and the bytes of
      each string's block. */
  datatype NativeConfig = NativeConfig(enabled: bool, wsUrl: seq<byte>, token: seq<byte>)

  /** The `SmStatus` the library returns; a null error pointer is `None`,
      otherwise the bytes of its block. */
  datatype NativeStatus = NativeStatus(isRunning: bool, isConnected: bool, lastError: Option<seq<byte>>)

  /** The two strings a config call copies out. */
  datatype Copy = WsUrlCopy | TokenCopy

  datatype SwiftCall =
    | ConfigLoad
    | ConfigFree
    | ConfigSave(config: NativeConfig)
    | ReporterStart(config: NativeConfig)
    | ReporterStop(handle: RawPointer)
    | Strdup(copy: Copy)
    | Free(copy: Copy)

  /** Every copy made is freed exactly once. */
  predicate Balanced(calls: seq<SwiftCall>)
  {
    forall c: Copy :: multiset(calls)[Strdup(c)] == multiset(calls)[Free(c)]
  }

  /** Two balanced call lists make a balanced one, and appending to or
      after a balanced list neither repairs nor breaks the other part. */
  lemma BalancedAppend(a: seq<SwiftCall>, b: seq<SwiftCall>)
    requires Balanced(a) || Balanced(b)
    ensures Balanced(a + b) <==> Balanced(a) && Balanced(b)
  {
    assert multiset(a + b) == multiset(a) + multiset(b);
    if !Balanced(a) {
      var c: Copy :| multiset(a)[Strdup(c)] != multiset(a)[Free(c)];
      assert multiset(a + b)[Strdup(c)] != multiset(a + b)[Free(c)];
    } else if !Balanced(b) {
      var c: Copy :| multiset(b)[Strdup(c)] != multiset(b)[Free(c)];
      assert multiset(a + b)[Strdup(c)] != multiset(a + b)[Free(c)];
    }
  }

  /** Some call of the list starts a worker. */
  predicate Starts(calls: seq<SwiftCall>)
  {
    exists i :: 0 <= i < |calls| && calls[i].ReporterStart?
  }

  /** A call of the library with a config. */
  predicate IsNativeCall(call: SwiftCall)
  {
    call.ConfigSave? || call.ReporterStart?
  }

  /** The calls include a call into the library with a config. */
  predicate NativeCalled(calls: seq<SwiftCall>)
  {
    exists i :: 0 <= i < |calls| && IsNativeCall(calls[i])
  }

  /** What `strdup` copies out of a Swift string: its UTF-8 bytes and a
      terminator. */
  function CString(s: string): seq<byte>
  {
    Utf8.Encode(s) + [0]
  }

  /** The struct a config call passes. */
  function Marshal(config: ReporterConfig): NativeConfig
  {
    NativeConfig(config.enabled, CString(config.wsUrl), CString(config.token))
  }

  /** The library reads back the strings the bridge copied out, provided
      they hold no U+0000. */
  lemma MarshalReadsBack(config: ReporterConfig)
    requires '\0' !in config.wsUrl && '\0' !in config.token
    ensures NativeMethods.CString(Marshal(config).wsUrl) == Some(config.wsUrl)
    ensures NativeMethods.CString(Marshal(config).token) == Some(config.token)
  {
    NativeMethods.CStringOfEncoded(config.wsUrl, []);
    NativeMethods.CStringOfEncoded(config.token, []);
    assert CString(config.wsUrl) == Utf8.Encode(config.wsUrl) + [0] + [];
    assert CString(config.token) == Utf8.Encode(config.token) + [0] + [];
  }

  // ---------------------------------------------------------------------
  // The guarded copies of saveConfig and startReporter
  // ---------------------------------------------------------------------

  /** The one case in which the guarded copies go wrong: the URL copy
      succeeds and the token copy fails. */
  predicate LeaksUrlCopy(wsDup: bool, tokDup: bool)
  {
    wsDup && !tokDup
  }

  /** The guarded copies with the first copy freed when the second fails. */
  function GuardedCopies(wsDup: bool, tokDup: bool, call: SwiftCall): (calls: seq<SwiftCall>)
    requires IsNativeCall(call)
    ensures NativeCalled(calls) <==> wsDup && tokDup
    ensures wsDup && tokDup ==> |calls| == 5 && calls[2] == call
    ensures forall i :: 0 <= i < |calls| ==> calls[i] == call || calls[i].Strdup? || calls[i].Free?
  {
    if !wsDup then []
    else if !tokDup then [Strdup(WsUrlCopy), Free(WsUrlCopy)]
    else
      var calls := [Strdup(WsUrlCopy), Strdup(TokenCopy), call, Free(WsUrlCopy), Free(TokenCopy)];
      assert IsNativeCall(calls[2]);
      calls
  }

  /** Every copy is freed exactly once, whichever copies succeed. */
  lemma GuardedCopiesBalanced(wsDup: bool, tokDup: bool, call: SwiftCall)
    requires IsNativeCall(call)
    ensures Balanced(GuardedCopies(wsDup, tokDup, call))
  {
    var calls := GuardedCopies(wsDup, tokDup, call);
    forall c: Copy
      ensures multiset(calls)[Strdup(c)] == multiset(calls)[Free(c)]
    {
      if !wsDup {
      } else if !tokDup {
        assert calls == [Strdup(WsUrlCopy)] + [Free(WsUrlCopy)];
      } else {
        assert calls == [Strdup(WsUrlCopy)] + [Strdup(TokenCopy)] + [call] + [Free(WsUrlCopy)] + [Free(TokenCopy)];
      }
    }
  }

  /** The calls of `guard let a = strdup(..), let b = strdup(..) else
      { return }` followed by `defer { free(a); free(b) }` and `call`, as
      written: the `defer` is registered only after both copies exist, so
      when the second copy fails the first is never freed. In every other
      case the calls are those of the corrected copies. */
  function GuardedCopiesAsWritten(wsDup: bool, tokDup: bool, call: SwiftCall): (calls: seq<SwiftCall>)
    requires IsNativeCall(call)
    ensures NativeCalled(calls) <==> wsDup && tokDup
    ensures LeaksUrlCopy(wsDup, tokDup) ==> calls == [Strdup(WsUrlCopy)]
    ensures !LeaksUrlCopy(wsDup, tokDup) ==> calls == GuardedCopies(wsDup, tokDup, call)
  {
    if !wsDup then []
    else if !tokDup then [Strdup(WsUrlCopy)]
    else
      var calls := [Strdup(WsUrlCopy), Strdup(TokenCopy), call, Free(WsUrlCopy), Free(TokenCopy)];
      assert IsNativeCall(calls[2]);
      calls
  }

  /** As written, every copy is freed exactly when the URL copy does not
      leak: a failed token copy after a successful URL copy leaves that copy
      unfreed, and that is the only unbalanced case. */
  lemma AsWrittenLeaksUrlCopy(wsDup: bool, tokDup: bool, call: SwiftCall)
    requires IsNativeCall(call)
    ensures Balanced(GuardedCopiesAsWritten(wsDup, tokDup, call)) <==> !LeaksUrlCopy(wsDup, tokDup)
  {
    var calls := GuardedCopiesAsWritten(wsDup, tokDup, call);
    if LeaksUrlCopy(wsDup, tokDup) {
      assert multiset(calls)[Strdup(WsUrlCopy)] == 1;
      assert multiset(calls)[Free(WsUrlCopy)] == 0;
    } else {
      GuardedCopiesBalanced(wsDup, tokDup, call);
    }
  }

  // ---------------------------------------------------------------------
  // RustBridge
  // ---------------------------------------------------------------------

  /** The decoding half of `loadConfig`: both strings are read up to their
      terminator. */
  function DecodeConfig(c: NativeConfig): (r: ReporterConfig)
    requires 0 in c.wsUrl && 0 in c.token
    ensures r.enabled == c.enabled
    ensures Some(r.wsUrl) == NativeMethods.CString(c.wsUrl) && Some(r.token) == NativeMethods.CString(c.token)
  {
    ReporterConfig(c.enabled, NativeMethods.CString(c.wsUrl).value, NativeMethods.CString(c.token).value)
  }

  /** Decoding what the bridge marshals gives the config back. */
  lemma DecodeMarshal(config: ReporterConfig)
    requires '\0' !in config.wsUrl && '\0' !in config.token
    ensures DecodeConfig(Marshal(config)) == config
  {
    MarshalReadsBack(config);
  }

  /** `loadConfig`: nil for a null pointer, with no free; otherwise the
      decoded config, and the struct freed exactly once. */
  method LoadConfig(loaded: Option<NativeConfig>) returns (config: Option<ReporterConfig>, calls: seq<SwiftCall>)
    requires loaded.Some? ==> 0 in loaded.value.wsUrl && 0 in loaded.value.token
    ensures config.None? <==> loaded.None?
    ensures loaded.None? ==> calls == [ConfigLoad]
    ensures loaded.Some? ==> config == Some(DecodeConfig(loaded.value))
    ensures loaded.Some? ==> calls == [ConfigLoad, ConfigFree]
  {
    calls := [ConfigLoad];
    if loaded.None? {
      return None, calls;
    }
    config := Some(DecodeConfig(loaded.value));
    // the deferred free
    calls := calls + [ConfigFree];
  }

  /** `saveConfig`: false with no library call unless both copies succeed;
      otherwise the library's answer. Both copies are freed on return,
      except that, as written, a successful URL copy is never freed when the
      token copy fails. */
  method SaveConfig(config: ReporterConfig, wsDup: bool, tokDup: bool, saved: bool)
    returns (ok: bool, calls: seq<SwiftCall>)
    ensures ok == (wsDup && tokDup && saved)
    ensures NativeCalled(calls) <==> wsDup && tokDup
    ensures wsDup && tokDup ==> |calls| == 5 && calls[2] == ConfigSave(Marshal(config))
    ensures LeaksUrlCopy(wsDup, tokDup) ==> calls == [Strdup(WsUrlCopy)]
    ensures Balanced(calls) <==> !LeaksUrlCopy(wsDup, tokDup)
    ensures !Starts(calls)
  {
    calls := GuardedCopiesAsWritten(wsDup, tokDup, ConfigSave(Marshal(config)));
    AsWrittenLeaksUrlCopy(wsDup, tokDup, ConfigSave(Marshal(config)));
    ok := wsDup && tokDup && saved;
  }

  /** `startReporter`: nil with no library call unless both copies succeed;
      nil for a null handle; otherwise the handle. Both copies are freed on
      return, except that, as written, a successful URL copy is never freed
      when the token copy fails. */
  method StartReporter(config: ReporterConfig, wsDup: bool, tokDup: bool, handle: RawPointer)
    returns (r: Option<RawPointer>, calls: seq<SwiftCall>)
    ensures r.Some? <==> wsDup && tokDup && handle != NullPointer
    ensures r.Some? ==> r.value == handle
    ensures NativeCalled(calls) <==> wsDup && tokDup
    ensures wsDup && tokDup ==> |calls| == 5 && calls[2] == ReporterStart(Marshal(config))
    ensures LeaksUrlCopy(wsDup, tokDup) ==> calls == [Strdup(WsUrlCopy)]
    ensures Balanced(calls) <==> !LeaksUrlCopy(wsDup, tokDup)
  {
    calls := GuardedCopiesAsWritten(wsDup, tokDup, ReporterStart(Marshal(config)));
    AsWrittenLeaksUrlCopy(wsDup, tokDup, ReporterStart(Marshal(config)));
    if !wsDup || !tokDup {
      return None, calls;
    }
    r := if handle == NullPointer then None else Some(handle);
  }

  /** `getStatus`: the flags are copied; a null error pointer is nil and any
      other is the string before its terminator. */
  function GetStatus(native: NativeStatus): (r: ReporterStatus)
    requires native.lastError.Some? ==> 0 in native.lastError.value
    ensures r.isRunning == native.isRunning && r.isConnected == native.isConnected
    ensures r.lastError.None? <==> native.lastError.None?
    ensures native.lastError.Some? ==> r.lastError == NativeMethods.CString(native.lastError.value)
  {
    var lastError := if native.lastError.None? then None else NativeMethods.CString(native.lastError.value);
    ReporterStatus(native.isRunning, native.isConnected, lastError)
  }
}
