# ShikenMatrix reporter bridge, modelled in Dafny

ShikenMatrix reports what a desktop is doing: the frontmost window and the track that is playing. The reporting itself is done by a worker library written in Rust. The library exposes C entry points: start and stop a reporter, poll its status, and register log, window and media callbacks. Two native shells drive it through these entry points:

- The Windows shell, written in C#, has a `RustBridge` service that marshals configs and strings across the boundary, and a `MainViewModel` that polls the status once a second and keeps a capped log.
- The macOS shell, written in Swift, has a static `RustBridge` and a `ContentView` with the same duties.

The library also keeps a short-lived now-playing cache on macOS. The older Tauri desktop app contributes four further pieces:

- the body of a status report;
- the image helper that labels and base64-encodes a cover;
- the S3 cover upload with its local cache of uploaded hashes;
- the commands that hold the optional reporter and the set of covers already sent.

Its web front end keeps a capped list of log lines.

The model has one Dafny module per source file. `Common` holds options and results, bounded logs and string helpers. `Utf8` (RFC 3629) and `Base64` (section 4 of RFC 4648) are the codecs the bridges depend on.

Code that updates state becomes a class with `modifies` clauses. Examples are the library's global slot, the bridge services, both views, the media cache, the upload store, the app state and the log store. Each of these methods is proved against a pure function, and lemmas about that function carry the interesting properties. Examples of such lemmas:

- a status poll logs one connection line per edge and a repeated error only once;
- strings marshalled to the library read back unchanged;
- base64 decoding undoes encoding and accepts only canonical input;
- a capped log always holds exactly the newest entries;
- an upload path has no template placeholders left.

Whatever lies outside the process is a parameter. This covers native answers, exceptions, clocks, hashes, S3 results, file reads and writes, and what the platform's media readers return. The calls a bridge makes across the boundary are recorded in a ghost trace. That trace lets contracts state, for example, that nothing is called, or that every copy is freed exactly once.

## Model

| member | source | states |
|---|---|---|
| FfiReporter.DecodeConfig | src/ffi/reporter.rs:74-82 | the worker's config has the caller's flags and the strings read up to each NUL terminator |
| FfiReporter.StartTransition | src/ffi/reporter.rs:60-121 | a handle is returned exactly when a config is given and no reporter is stored; the handle is the non-null token and the new worker has no callbacks; a refused start keeps the slot |
| FfiReporter.SecondStartRefused | src/ffi/reporter.rs:66-72 | a second start in a row returns null and keeps the first worker |
| FfiReporter.ReporterLibrary.constructor | src/ffi/reporter.rs:11 | the global slot starts empty |
| FfiReporter.ReporterLibrary.Start | src/ffi/reporter.rs:55-122 | the slot and handle follow `StartTransition` on the decoded config; on success the media-reporting variable is set from the config's flag, on failure it is left alone |
| FfiReporter.ReporterLibrary.Stop | src/ffi/reporter.rs:133-144 | the handle is ignored; the answer says whether a reporter was stored, and the slot is empty afterwards |
| FfiReporter.ReporterLibrary.GetStatus | src/ffi/reporter.rs:154-166 | running is whether a reporter is stored, connected requires running, and the error pointer is always null |
| FfiReporter.ReporterLibrary.IsRunning | src/ffi/reporter.rs:174-177 | true exactly when a reporter is stored |
| FfiReporter.ReporterLibrary.SetLogCallback | src/ffi/reporter.rs:185-196 | with a reporter stored, only its log callback is replaced; without one, nothing changes |
| FfiReporter.ReporterLibrary.SetWindowCallback | src/ffi/reporter.rs:204-212 | the same for the window callback |
| FfiReporter.ReporterLibrary.SetMediaCallback | src/ffi/reporter.rs:220-228 | the same for the media callback |
| NativeMethods.LogLevel.Code | win-ui/ShikenMatrix/Native/NativeMethods.cs:10-15 | each level's byte code is at most 2 |
| NativeMethods.LevelOf | win-ui/ShikenMatrix/Native/NativeMethods.cs:10-15 | a code denotes a level exactly when it is at most 2 |
| NativeMethods.LogLevelCodes | win-ui/ShikenMatrix/Native/NativeMethods.cs:10-15 | codes and levels are inverse in both directions |
| NativeMethods.FirstZero | win-ui/ShikenMatrix/Native/NativeMethods.cs:229-239 | the index of the first zero byte, with no zero before it; none exactly when no zero byte exists |
| NativeMethods.FirstZeroAtMost | win-ui/ShikenMatrix/Native/NativeMethods.cs:229-239 | any zero byte bounds the terminator's position |
| NativeMethods.CStringEmpty | win-ui/ShikenMatrix/Native/NativeMethods.cs:229-239 | a block starting with the terminator holds the empty string |
| NativeMethods.CStringIgnoresTail | win-ui/ShikenMatrix/Native/NativeMethods.cs:229-239 | the bytes after the terminator do not affect the string read |
| NativeMethods.CStringOfEncoded | win-ui/ShikenMatrix/Native/NativeMethods.cs:222-261 | a string without U+0000, written as UTF-8 with a terminator, reads back unchanged |
| NativeMethods.PtrToStringUTF8 | win-ui/ShikenMatrix/Native/NativeMethods.cs:222-245 | null for a null pointer; otherwise the scanning loop decodes exactly the bytes before the first zero |
| NativeMethods.StringToPtrUTF8 | win-ui/ShikenMatrix/Native/NativeMethods.cs:251-261 | null exactly for a null or empty string; otherwise a fresh block holding the UTF-8 bytes and a zero |
| NativeMethods.PtrToByteArray | win-ui/ShikenMatrix/Native/NativeMethods.cs:266-281 | null for a null pointer or a zero size; otherwise a fresh copy of the first `size` bytes |
| NativeMethods.StringRoundTrip | win-ui/ShikenMatrix/Native/NativeMethods.cs:222-261 | reading back what `StringToPtrUTF8` wrote gives the string |
| Utf8.EncodeChar | win-ui/ShikenMatrix/Native/NativeMethods.cs:256 | one to four bytes, and a single byte exactly for ASCII |
| Utf8.Encode | win-ui/ShikenMatrix/Native/NativeMethods.cs:256 | between one and four bytes per character |
| Utf8.DecodeOne | win-ui/ShikenMatrix/Native/NativeMethods.cs:239 | consumes between one byte and the whole input, no more than the lead byte announces; an invalid lead byte consumes exactly one byte; otherwise what is consumed is the longest prefix that could still begin a well-formed sequence (RFC 3629, section 4), and anything short of a whole sequence is one U+FFFD |
| Utf8.DecodeOneWellFormed | win-ui/ShikenMatrix/Native/NativeMethods.cs:239 | a whole sequence decodes to the character whose encoding it is |
| Utf8.Decode | win-ui/ShikenMatrix/Native/NativeMethods.cs:239 | at most one character per byte, and none exactly for no bytes |
| Utf8.DecodeOneEncodeChar | win-ui/ShikenMatrix/Native/NativeMethods.cs:239 | the decoder reads back the encoded character and consumes exactly its bytes |
| Utf8.DecodeEncode | win-ui/ShikenMatrix/Native/NativeMethods.cs:239 | decoding the encoding of a string gives the string |
| Utf8.EncodeCharZero | win-ui/ShikenMatrix/Native/NativeMethods.cs:256 | a zero byte appears in a character's encoding exactly for U+0000 |
| Utf8.EncodeNoZero | win-ui/ShikenMatrix/Native/NativeMethods.cs:256 | a string without U+0000 encodes without zero bytes, so the terminator is unambiguous |
| Utf8.EncodeEmpty | win-ui/ShikenMatrix/Native/NativeMethods.cs:251-256 | the encoding is empty exactly for the empty string |
| Utf8.ByteLength | src/platform/macos/media.rs:107-108 | between one and four bytes per character |
| Utf8.ByteLengthAscii | src/platform/macos/media.rs:107-108 | one byte per character exactly for ASCII text |
| RustBridgeWin.StringOrEmpty | win-ui/ShikenMatrix/Services/RustBridge.cs:47-48 | "" for a null pointer; otherwise the string the pointer holds |
| RustBridgeWin.StringAt | win-ui/ShikenMatrix/Services/RustBridge.cs:189 | none for a null pointer; otherwise the NUL-terminated string |
| RustBridgeWin.GetArtworkImage | win-ui/ShikenMatrix/Services/RustBridge.cs:396-424 | an image exactly when the pointer is non-null, the size is between 1 and 2,000,000 bytes, the bytes can be copied and they decode; the image holds exactly the first `size` bytes |
| RustBridgeWin.RustBridge.constructor | win-ui/ShikenMatrix/Services/RustBridge.cs:16-28 | no delegates, no subscribers, no handle, updates enabled, no native calls |
| RustBridgeWin.RustBridge.LoadConfig | win-ui/ShikenMatrix/Services/RustBridge.cs:35-61 | none when the library has no config; otherwise the struct is freed and, unless reading it throws, its fields are read with null strings as "" |
| RustBridgeWin.RustBridge.SaveConfig | win-ui/ShikenMatrix/Services/RustBridge.cs:66-100 | true exactly when nothing throws and the library saves; every copied string is freed exactly once, in the `finally`; the struct block is freed only when the native call returns, so a throwing call leaves it allocated |
| RustBridgeWin.RustBridge.IsRunning | win-ui/ShikenMatrix/Services/RustBridge.cs:170-173 | the library's answer, after one call |
| RustBridgeWin.RustBridge.StartReporter | win-ui/ShikenMatrix/Services/RustBridge.cs:109-152 | refused with no start call while the library runs; otherwise success is a non-null handle with no exception, and the handle is stored |
| RustBridgeWin.RustBridge.StopReporter | win-ui/ShikenMatrix/Services/RustBridge.cs:157-165 | without a handle there is no native call and the answer is false; with one, the library's answer; the handle is cleared either way |
| RustBridgeWin.RustBridge.GetStatus | win-ui/ShikenMatrix/Services/RustBridge.cs:178-191 | a stopped status without a handle; otherwise the native flags and the error string |
| RustBridgeWin.RustBridge.SetLogCallback | win-ui/ShikenMatrix/Services/RustBridge.cs:200-206 | the wrapper delegate is kept alive and registered |
| RustBridgeWin.RustBridge.SetWindowCallback | win-ui/ShikenMatrix/Services/RustBridge.cs:211-217 | the same for the window wrapper |
| RustBridgeWin.RustBridge.SetMediaCallback | win-ui/ShikenMatrix/Services/RustBridge.cs:222-226 | the same for the media wrapper |
| RustBridgeWin.RustBridge.ClearCallbacks | win-ui/ShikenMatrix/Services/RustBridge.cs:231-246 | do-nothing delegates are registered for all three callbacks and every subscriber is dropped |
| RustBridgeWin.RustBridge.SetUpdatesEnabled | win-ui/ShikenMatrix/Services/RustBridge.cs:292-300 | the gate is set, and closing it asks a subscriber to clear its state |
| RustBridgeWin.RustBridge.LogCallbackWrapper | win-ui/ShikenMatrix/Services/RustBridge.cs:306-319 | while the gate is open and a subscriber exists, a message that decodes is handed over with its level; otherwise nothing is handed over |
| RustBridgeWin.RustBridge.WindowCallbackWrapper | win-ui/ShikenMatrix/Services/RustBridge.cs:321-341 | while the gate is open, the decoded title, process name and pid are handed over, without an icon |
| RustBridgeWin.RustBridge.MediaCallbackWrapper | win-ui/ShikenMatrix/Services/RustBridge.cs:343-364 | while the gate is open and a media handler is set, the decoded track fields ("Unknown" for a null string) and an artwork that is present exactly when the bytes are in range and decode, holding exactly those bytes, are handed over; otherwise nothing is |
| SwiftBridge.MarshalReadsBack | macos-ui/ShikenMatrix/ShikenMatrix/RustBridge.swift:92-105 | the library reads back the URL and token the bridge copied out |
| SwiftBridge.GuardedCopiesAsWritten | macos-ui/ShikenMatrix/ShikenMatrix/RustBridge.swift:92-99 | the library is called exactly when both copies succeed; when the URL copy succeeds and the token copy fails the only call is that copy; otherwise the calls are those of the corrected copies |
| SwiftBridge.AsWrittenLeaksUrlCopy | macos-ui/ShikenMatrix/ShikenMatrix/RustBridge.swift:114-121 | as written, the copies are balanced exactly when it is not the case that the URL copy succeeds and the token copy fails |
| SwiftBridge.GuardedCopies | macos-ui/ShikenMatrix/ShikenMatrix/RustBridge.swift:92-99 | the library is called exactly when both copies succeed, between the copies and the frees |
| SwiftBridge.GuardedCopiesBalanced | macos-ui/ShikenMatrix/ShikenMatrix/RustBridge.swift:92-99 | with the first copy freed on failure, every copy is freed exactly once |
| SwiftBridge.BalancedAppend | macos-ui/ShikenMatrix/ShikenMatrix/RustBridge.swift:92-121 | when one of two call lists is balanced, their concatenation is balanced exactly when both are |
| SwiftBridge.DecodeConfig | macos-ui/ShikenMatrix/ShikenMatrix/RustBridge.swift:78-87 | the flag is copied and both strings are read up to their terminators |
| SwiftBridge.DecodeMarshal | macos-ui/ShikenMatrix/ShikenMatrix/RustBridge.swift:78-105 | decoding what the bridge marshals gives the config back |
| SwiftBridge.LoadConfig | macos-ui/ShikenMatrix/ShikenMatrix/RustBridge.swift:73-88 | nil with no free for a null pointer; otherwise the decoded config, with the struct freed |
| SwiftBridge.SaveConfig | macos-ui/ShikenMatrix/ShikenMatrix/RustBridge.swift:91-110 | true exactly when both copies and the save succeed; the library is called only with both copies, on the marshalled config; the copies are balanced exactly unless the URL copy succeeds and the token copy fails, when the URL copy is made and never freed; nothing is started |
| SwiftBridge.StartReporter | macos-ui/ShikenMatrix/ShikenMatrix/RustBridge.swift:113-134 | a handle exactly when both copies succeed and the library returns non-null; the library is called only with both copies, on the marshalled config; the copies are balanced exactly unless the URL copy succeeds and the token copy fails, when the URL copy is made and never freed |
| SwiftBridge.GetStatus | macos-ui/ShikenMatrix/ShikenMatrix/RustBridge.swift:142-159 | the flags are copied; the error is nil exactly for a null pointer, and otherwise is the string it holds |
| MacContentView.StatusIndicatorColor | macos-ui/ShikenMatrix/ShikenMatrix/ContentView.swift:225-230 | red exactly when stopped, green exactly when running and connected, orange exactly when running and not connected |
| MacContentView.Tick | macos-ui/ShikenMatrix/ShikenMatrix/ContentView.swift:319-333 | the flag and status text follow the poll; a polled error replaces the stored one and no error keeps it |
| MacContentView.TickLines | macos-ui/ShikenMatrix/ShikenMatrix/ContentView.swift:329-338 | at most two lines; the error line exactly for a new error, and a connection line exactly when the flag changes |
| MacContentView.TickIdempotent | macos-ui/ShikenMatrix/ShikenMatrix/ContentView.swift:319-338 | polling the same status again changes nothing and logs nothing |
| MacContentView.ConnectedFlags | macos-ui/ShikenMatrix/ShikenMatrix/ContentView.swift:321 | the connection flag of each poll, in order |
| MacContentView.TickConnectionLines | macos-ui/ShikenMatrix/ShikenMatrix/ContentView.swift:335-338 | one poll logs one connection line when the flag changes, and none otherwise |
| MacContentView.ConnectionLinesConcat | macos-ui/ShikenMatrix/ShikenMatrix/ContentView.swift:335-338 | connection lines add up over concatenated logs |
| MacContentView.ConnectionLinesAreEdges | macos-ui/ShikenMatrix/ShikenMatrix/ContentView.swift:335-338 | a run of polls logs exactly one connection line per edge of the polled flags |
| MacContentView.RepeatedErrorLoggedOnce | macos-ui/ShikenMatrix/ShikenMatrix/ContentView.swift:330-333 | an error polled any number of times is logged once, or not at all if it was already stored |
| MacContentView.NoErrorKeepsLastError | macos-ui/ShikenMatrix/ShikenMatrix/ContentView.swift:330-333 | polls without an error keep the stored error |
| MacContentView.BalancedExtension | macos-ui/ShikenMatrix/ShikenMatrix/ContentView.swift:245-285 | two extensions of the bridge's call list in a row, one of them balanced, make a balanced extension exactly when both are |
| MacContentView.AppendAllCappedSnoc | macos-ui/ShikenMatrix/ShikenMatrix/ContentView.swift:350-363 | a run of capped appends followed by one more is the run extended by that entry |
| MacContentView.ContentView.constructor | macos-ui/ShikenMatrix/ShikenMatrix/ContentView.swift:12-22 | stopped, no handle, an empty log and "Stopped" shown |
| MacContentView.ContentView.AddLog | macos-ui/ShikenMatrix/ShikenMatrix/ContentView.swift:350-363 | the entry goes last and only the newest 500 entries are kept |
| MacContentView.ContentView.LoadConfig | macos-ui/ShikenMatrix/ShikenMatrix/ContentView.swift:234-243 | a stored config replaces the form with "Config loaded" and one line logged; otherwise the form is kept, "No config found" is shown and a warning logged |
| MacContentView.ContentView.SaveConfig | macos-ui/ShikenMatrix/ShikenMatrix/ContentView.swift:245-256 | the answer is the bridge's; the library receives the marshalled form config (`ConfigSave(Marshal(config))`, third of five calls) exactly when both copies succeed; success is logged, failure raises an alert and logs an error; the bridge's copies are balanced exactly unless its URL copy leaks; nothing is started |
| MacContentView.ContentView.ShowSaveOutcome | macos-ui/ShikenMatrix/ShikenMatrix/ContentView.swift:247-254 | success logs one line; failure sets the alert and logs an error |
| MacContentView.ContentView.BridgeSave | macos-ui/ShikenMatrix/ShikenMatrix/ContentView.swift:246 | the library receives `ConfigSave(Marshal(config))` for the form's config exactly when both copies succeed, between the copies and the frees; the answer is the bridge's; its copies are balanced exactly unless the URL copy leaks; no start is made |
| MacContentView.ContentView.StartReporter | macos-ui/ShikenMatrix/ShikenMatrix/ContentView.swift:268-285 | the library receives `ConfigSave(Marshal(config))` when both save copies succeed, and after a successful save `ReporterStart(Marshal(config))` on the same config when both start copies succeed; a failed save starts nothing and shows the save alert and error log, leaving the status line; a nil handle raises an alert and leaves the status line at "Config saved"; a handle is stored and the view shows the reporter starting; the bridge's copies are balanced exactly unless the save's URL copy leaks or, after a successful save, the start's does |
| MacContentView.ContentView.LaunchReporter | macos-ui/ShikenMatrix/ShikenMatrix/ContentView.swift:271-284 | after the save: the library receives `ReporterStart(Marshal(config))` exactly when both copies succeed; the handle and the running state follow the bridge's answer, and a nil handle leaves the status line alone; the copies are balanced exactly unless the start's URL copy leaks |
| MacContentView.ContentView.ShowStartFailure | macos-ui/ShikenMatrix/ShikenMatrix/ContentView.swift:272-274 | the alert text is set and an error is logged |
| MacContentView.ContentView.ShowStarted | macos-ui/ShikenMatrix/ShikenMatrix/ContentView.swift:278-284 | the handle is stored, running with "Starting...", one line is logged and the status bar is refreshed |
| MacContentView.ContentView.BridgeStart | macos-ui/ShikenMatrix/ShikenMatrix/ContentView.swift:271 | the library receives `ReporterStart(Marshal(config))` for the form's config exactly when both copies succeed; a handle exactly when both copies succeed and the library answers one; the copies are balanced exactly unless the URL copy leaks |
| MacContentView.ContentView.StopReporter | macos-ui/ShikenMatrix/ShikenMatrix/ContentView.swift:287-300 | the library is stopped only when a handle is stored; afterwards there is no handle, no error and the view shows "Stopped" |
| MacContentView.ContentView.ReleaseHandle | macos-ui/ShikenMatrix/ShikenMatrix/ContentView.swift:288-291 | a stored handle is stopped once and dropped |
| MacContentView.ContentView.ToggleReporter | macos-ui/ShikenMatrix/ShikenMatrix/ContentView.swift:260-266 | running stops; stopped starts, and it runs afterwards exactly when the save and the start succeed |
| MacContentView.ContentView.UpdateStatus | macos-ui/ShikenMatrix/ShikenMatrix/ContentView.swift:315-342 | nothing changes unless running with a handle; otherwise the view follows `Tick` and `TickLines` on the bridge's status |
| MacContentView.ContentView.ApplyStatus | macos-ui/ShikenMatrix/ShikenMatrix/ContentView.swift:319-338 | the view becomes `Tick` of the old view and the log gains `TickLines`, capped |
| MacContentView.ContentView.LogNewError | macos-ui/ShikenMatrix/ShikenMatrix/ContentView.swift:330-333 | a new error is stored and logged once; any other poll leaves the error and the log alone |
| MacContentView.ContentView.UpdateStatusBar | macos-ui/ShikenMatrix/ShikenMatrix/ContentView.swift:344-346 | the status bar shows the current running and connected flags |
| WinViewModel.StatusColors | win-ui/ShikenMatrix/ViewModels/MainViewModel.cs:184-192 | each monitor status and each API status text maps to its colour |
| WinViewModel.MonitorStatusColor | win-ui/ShikenMatrix/ViewModels/MainViewModel.cs:184-187 | green exactly while monitoring, grey exactly when stopped, never red |
| WinViewModel.ApiStatusColor | win-ui/ShikenMatrix/ViewModels/MainViewModel.cs:188-192 | red exactly for a failed connection, orange exactly while connecting, green exactly when connected |
| WinViewModel.MatchesSearch | win-ui/ShikenMatrix/ViewModels/MainViewModel.cs:305-308 | an empty search matches every entry; a match is never longer than the message |
| WinViewModel.Filter | win-ui/ShikenMatrix/ViewModels/MainViewModel.cs:296-312 | no longer than the log |
| WinViewModel.FilterAppend | win-ui/ShikenMatrix/ViewModels/MainViewModel.cs:296-312 | filtering keeps log order: the filter of a concatenation is the concatenation of the filters |
| WinViewModel.FilterMembers | win-ui/ShikenMatrix/ViewModels/MainViewModel.cs:296-312 | an entry is kept exactly when it is in the log and matches the search |
| WinViewModel.MatchesSearchIgnoresCase | win-ui/ShikenMatrix/ViewModels/MainViewModel.cs:305-308 | matching the lower-cased search is matching the search, ignoring case |
| WinViewModel.Tick | win-ui/ShikenMatrix/ViewModels/MainViewModel.cs:484-505 | the flag follows the poll; a new error sets the error status; a poll with no change keeps the status |
| WinViewModel.TickLog | win-ui/ShikenMatrix/ViewModels/MainViewModel.cs:498-504 | a line exactly for a new error |
| WinViewModel.TickIdempotent | win-ui/ShikenMatrix/ViewModels/MainViewModel.cs:484-505 | the same poll twice: the second changes nothing and logs nothing |
| WinViewModel.ConnectedFlags | win-ui/ShikenMatrix/ViewModels/MainViewModel.cs:492 | the connection flag of each poll, in order |
| WinViewModel.ConnectionChangesAreEdges | win-ui/ShikenMatrix/ViewModels/MainViewModel.cs:491-496 | a run of polls changes the connection flag once per edge of the polled flags |
| WinViewModel.RepeatedErrorLoggedOnce | win-ui/ShikenMatrix/ViewModels/MainViewModel.cs:498-504 | one error polled repeatedly is logged once, or not at all if already stored |
| WinViewModel.NoErrorKeepsLastError | win-ui/ShikenMatrix/ViewModels/MainViewModel.cs:498-504 | polls without an error log nothing and keep the stored error |
| WinViewModel.QuietAppend | win-ui/ShikenMatrix/ViewModels/MainViewModel.cs:113-182 | events that do not include a property announce nothing about it |
| WinViewModel.AnnouncedKept | win-ui/ShikenMatrix/ViewModels/MainViewModel.cs:113-182 | later events that do not name a property keep what was announced about it |
| WinViewModel.MainViewModel.HasError | win-ui/ShikenMatrix/ViewModels/MainViewModel.cs:153 | true exactly for a present, non-empty error |
| WinViewModel.MainViewModel.HasData | win-ui/ShikenMatrix/ViewModels/MainViewModel.cs:250 | true exactly when a window or a track is shown |
| WinViewModel.MainViewModel.constructor | win-ui/ShikenMatrix/ViewModels/MainViewModel.cs:36-81 | stopped, disconnected, no error, an empty log, "Ready" and "Disconnected"; a new bridge gets the subscribers and the three wrappers registered, then the config is loaded: the stored one replaces the default, a missing one keeps it |
| WinViewModel.MainViewModel.SetIsRunning | win-ui/ShikenMatrix/ViewModels/MainViewModel.cs:113-124 | the value is set and announced only when it changes |
| WinViewModel.MainViewModel.SetIsConnected | win-ui/ShikenMatrix/ViewModels/MainViewModel.cs:126-137 | the same for the connection flag |
| WinViewModel.MainViewModel.SetLastError | win-ui/ShikenMatrix/ViewModels/MainViewModel.cs:139-151 | the error is set; on change the error and `HasError` are announced |
| WinViewModel.MainViewModel.SetMonitorStatus | win-ui/ShikenMatrix/ViewModels/MainViewModel.cs:156-168 | the status is set; on change the status and its colour are announced |
| WinViewModel.MainViewModel.SetApiStatus | win-ui/ShikenMatrix/ViewModels/MainViewModel.cs:170-182 | the same for the API status |
| WinViewModel.MainViewModel.SetCurrentWindow | win-ui/ShikenMatrix/ViewModels/MainViewModel.cs:222-234 | the window is set and announced with `HasData` |
| WinViewModel.MainViewModel.SetCurrentMedia | win-ui/ShikenMatrix/ViewModels/MainViewModel.cs:236-248 | the same for the track |
| WinViewModel.MainViewModel.AddLog | win-ui/ShikenMatrix/ViewModels/MainViewModel.cs:456-482 | the entry goes last, only the newest 200 are kept, and the filtered view is announced when a search is active |
| WinViewModel.MainViewModel.FilteredLogs | win-ui/ShikenMatrix/ViewModels/MainViewModel.cs:296-312 | the whole log for a blank search; otherwise the case-insensitive filter |
| WinViewModel.MainViewModel.SetupCallbacks | win-ui/ShikenMatrix/ViewModels/MainViewModel.cs:414-454 | all four subscribers are installed and the three wrappers registered; nothing else changes in the bridge |
| WinViewModel.MainViewModel.StartReporter | win-ui/ShikenMatrix/ViewModels/MainViewModel.cs:357-392 | a blank address or token logs one error and calls nothing; otherwise the bridge trace is exactly the marshalled save of the enabled config, then after a successful save the `is_running` query and the marshalled start of the same config, then the three delegate registrations on a successful start; a failed save logs an error and leaves both status lights; a failed start logs an error, disables the form, shows Ready and Error and leaves the flags, error, window, track and timer alone, with the bridge keeping the handle the library returned; success shows running and starts the poll |
| WinViewModel.MainViewModel.SaveAndStart | win-ui/ShikenMatrix/ViewModels/MainViewModel.cs:365-391 | the bridge trace is exactly the marshalled save of the enabled config, then after a successful save the marshalled start of the same config, then the registrations on success; a failed save leaves the status lights; a failed start touches only the log, the config and the two statuses; each failure is shown |
| WinViewModel.MainViewModel.StartSaved | win-ui/ShikenMatrix/ViewModels/MainViewModel.cs:372-391 | the bridge is started on the form's config (`StartCall`), and the started view adds the three registrations; a failed start touches only the log, the config and the two statuses |
| WinViewModel.MainViewModel.SaveToBridge | win-ui/ShikenMatrix/ViewModels/MainViewModel.cs:366 | the bridge's save answer, and the one marshalled save call it adds to the trace |
| WinViewModel.MainViewModel.SaveEnabled | win-ui/ShikenMatrix/ViewModels/MainViewModel.cs:365-370 | the config is marked enabled and the bridge trace gains exactly one marshalled save of it; a failed save adds one error log |
| WinViewModel.MainViewModel.ShowSaveFailed | win-ui/ShikenMatrix/ViewModels/MainViewModel.cs:368 | one error log for the failed save |
| WinViewModel.MainViewModel.StartBridge | win-ui/ShikenMatrix/ViewModels/MainViewModel.cs:372 | the bridge trace gains the `is_running` query and, unless it answers yes, the marshalled start of the form's config; the answer is success; the handle is the library's answer whenever the library was called without a fault |
| WinViewModel.MainViewModel.ShowStarted | win-ui/ShikenMatrix/ViewModels/MainViewModel.cs:374-383 | running, "Running" and "Connecting", no error, subscribers installed, the three wrapper delegates registered with the bridge and the poll started |
| WinViewModel.MainViewModel.ShowStartFailed | win-ui/ShikenMatrix/ViewModels/MainViewModel.cs:387-390 | an error is logged, the form is disabled and the status shows the failure |
| WinViewModel.MainViewModel.StopReporter | win-ui/ShikenMatrix/ViewModels/MainViewModel.cs:394-412 | the handle is cleared; without a handle nothing is called; otherwise the library is asked to stop; a refused stop changes no view property, status or timer; only a reported stop shows the stopped view, with no error, window or track left, and re-saves the config disabled through a marshalled save call; subscribers, delegates and the gate are left alone |
| WinViewModel.MainViewModel.ShowStopped | win-ui/ShikenMatrix/ViewModels/MainViewModel.cs:398-407 | stopped, disconnected, nothing shown, no error, the poll stopped |
| WinViewModel.MainViewModel.ShowStatusStopped | win-ui/ShikenMatrix/ViewModels/MainViewModel.cs:398-401 | the status properties of a stop |
| WinViewModel.MainViewModel.ClearShownData | win-ui/ShikenMatrix/ViewModels/MainViewModel.cs:402-404 | no window, track or error is shown |
| WinViewModel.MainViewModel.ToggleReporter | win-ui/ShikenMatrix/ViewModels/MainViewModel.cs:318-328 | running stops and clears the handle, and stays running iff the stop is refused, a reported stop showing the stopped view with the config disabled; stopped runs iff the input is filled and the save and the start succeed, with the bridge trace of `SaveThenStart` |
| WinViewModel.MainViewModel.OnStatusTimerTick | win-ui/ShikenMatrix/ViewModels/MainViewModel.cs:484-505 | nothing unless running; otherwise the view follows `Tick` and `TickLog` on the bridge's status |
| WinViewModel.MainViewModel.ApplyPoll | win-ui/ShikenMatrix/ViewModels/MainViewModel.cs:489-504 | the view becomes `Tick` of the old view, the log gains `TickLog`, and the connection is announced exactly on an edge |
| WinViewModel.MainViewModel.ApplyEdge | win-ui/ShikenMatrix/ViewModels/MainViewModel.cs:492-496 | the flag follows the poll, the API status becomes "Connected" or "Connecting", and the change is announced first |
| WinViewModel.MainViewModel.ApplyError | win-ui/ShikenMatrix/ViewModels/MainViewModel.cs:499-504 | the error is stored and logged with the error status, without announcing the connection |
| WinViewModel.MainViewModel.RunNextDispatched | win-ui/ShikenMatrix/ViewModels/MainViewModel.cs:416-447 | the oldest handed-over item is run: a log line, a window, a track, or a clear of the shown data |
| WinViewModel.MainViewModel.LoadConfig | win-ui/ShikenMatrix/ViewModels/MainViewModel.cs:348-355 | a config the bridge reads replaces the form's, with null strings as ""; otherwise the form is kept |
| WinViewModel.MainViewModel.ClearLogs | win-ui/ShikenMatrix/ViewModels/MainViewModel.cs:330-333 | the log is emptied |
| WinViewModel.MainViewModel.OnLoaded | win-ui/ShikenMatrix/ViewModels/MainViewModel.cs:511-528 | the library is asked first; a running library is shown as running and subscribed with the poll started; otherwise "Ready" and "Disconnected" |
| WinViewModel.MainViewModel.OnUnloaded | win-ui/ShikenMatrix/ViewModels/MainViewModel.cs:530-548 | the poll stops, do-nothing delegates are registered, the subscribers are dropped and the log is emptied; the handle is kept |
| MacMedia.Elapsed | src/platform/macos/media.rs:86 | the time since `t`, or zero when `t` lies ahead |
| MacMedia.DefaultCacheInvalid | src/platform/macos/media.rs:55-69 | a fresh cache is never valid, so the first read refreshes it |
| MacMedia.IsCacheValid | src/platform/macos/media.rs:185-187 | valid exactly when updated less than 200 ms ago |
| MacMedia.TrackKey | src/platform/macos/media.rs:74-79 | the three fields and two separators, a missing album as empty |
| MacMedia.TrackKeyDistinguishes | src/platform/macos/media.rs:74-81 | with no colon in the bundle identifiers and titles, equal keys mean the same bundle, title and album |
| MacMedia.CountArtistSeparators | src/platform/macos/media.rs:90-97 | zero exactly when no separator occurs |
| MacMedia.KeyChanged | src/platform/macos/media.rs:81 | a cache without a key always counts as a new track |
| MacMedia.IsRapidUpdate | src/platform/macos/media.rs:84-87 | exactly when the track is the same and it was fully described less than three seconds ago |
| MacMedia.LooksDegraded | src/platform/macos/media.rs:104-112 | a degraded artist differs from the old one; an empty one is degraded exactly when the old one lists several artists |
| MacMedia.ShouldPreserveArtist | src/platform/macos/media.rs:100-113 | only on a rapid update, with both artists present and different |
| MacMedia.ArtworkAfter | src/platform/macos/media.rs:127-143 | the same track keeps its cached artwork; a new track takes the decoded artwork or none; the key is the track's |
| MacMedia.Update | src/platform/macos/media.rs:72-182 | the key and metadata describe the new track; the artist differs from the reported one only when the fuller cached one is kept; the timestamps and playback follow |
| MacMedia.UpdateIdempotent | src/platform/macos/media.rs:72-182 | the same information applied twice at the same instant changes nothing more |
| MacMedia.FewerSeparatorsKeepCachedArtist | src/platform/macos/media.rs:99-121 | on a rapid update, a cached artist list is kept against a reported string with fewer separators |
| MacMedia.ShorterArtistKeepsCachedArtist | src/platform/macos/media.rs:99-121 | on a rapid update, a cached artist is kept against a non-empty reported string under three fifths of its UTF-8 length |
| MacMedia.ReportedArtistTaken | src/platform/macos/media.rs:99-121 | in every other case the reported artist is taken |
| MacMedia.PlaybackOf | src/platform/macos/media.rs:170-174 | the playing flag is copied; a missing rate is 1 while playing and 0 otherwise |
| MacMedia.MediaCache.constructor | src/platform/macos/media.rs:55-65 | the cache state is the default one |
| MacMedia.MediaCache.UpdateFromInfo | src/platform/macos/media.rs:72-182 | the state becomes `Update` of the old state |
| MacMedia.MediaCache.TakeArtwork | src/platform/macos/media.rs:127-143 | the artwork, its type and the key are `ArtworkAfter` of the old state |
| MacMedia.MediaCache.Clear | src/platform/macos/media.rs:222-228 | metadata and playback are dropped and the update time is set |
| MacMedia.MediaSource.constructor | src/platform/macos/media.rs:68 | the global cell starts empty |
| MacMedia.MediaSource.Refresh | src/platform/macos/media.rs:195-231 | a valid cache is a hit and is left alone; otherwise the cache is created or updated from the reader, or cleared when nothing plays |
| MacMedia.MediaSource.GetPlaybackState | src/platform/macos/media.rs:190-239 | the cached state while valid; otherwise the state of the refreshed cache |
| MacMedia.MediaSource.GetMediaMetadata | src/platform/macos/media.rs:242-291 | the cached metadata while valid; after a refresh, the metadata of the cache updated with the new information (a fresh cache when there was none); none when nothing plays |
| FilesConverter.SignaturesExclusive | src-tauri/src/modules/files_converter.rs:32-43 | the four types are distinct, and each signature fixes the first byte |
| FilesConverter.IsWebp | src-tauri/src/modules/files_converter.rs:38 | a WebP header needs at least thirteen bytes starting with `R` |
| FilesConverter.SniffMime | src-tauri/src/modules/files_converter.rs:32-43 | one of four types, tried in order; WebP exactly for a RIFF-WEBP header with more bytes after it; JPEG exactly when no other signature matches |
| FilesConverter.EmptyIsJpeg | src-tauri/src/modules/files_converter.rs:40-43 | empty input is labelled JPEG |
| FilesConverter.BareWebpHeaderIsJpeg | src-tauri/src/modules/files_converter.rs:38 | a bare twelve-byte WebP header is labelled JPEG |
| FilesConverter.DataUrlHeader | src-tauri/src/modules/files_converter.rs:44 | starts with `data:`, and its first comma is its last character |
| FilesConverter.EncodeAsBase64 | src-tauri/src/modules/files_converter.rs:28-45 | the header, then four characters per started group of three bytes |
| FilesConverter.DataUrlCarriesBytes | src-tauri/src/modules/files_converter.rs:30-44 | the data after the header decodes to the image bytes |
| Base64.CharOf | src-tauri/src/modules/files_converter.rs:30 | never the pad character |
| Base64.ValueOf | src-tauri/src/lib.rs:107 | a value below 64 whose character is the input |
| Base64.ValueOfCharOf | src-tauri/src/lib.rs:107 | every 6-bit value reads back from its character |
| Base64.Encode | src-tauri/src/modules/files_converter.rs:30 | four characters per started group of three bytes |
| Base64.EncodeAlphabet | src-tauri/src/modules/files_converter.rs:30 | only alphabet characters and pads, with pads only in the last two places |
| Base64.Decode | src-tauri/src/lib.rs:107 | a length that is not a multiple of four fails |
| Base64.DecodeGroup | src-tauri/src/lib.rs:107 | bytes exactly when all four characters are in the alphabet, and then three of them |
| Base64.DecodeLast | src-tauri/src/lib.rs:107 | a pad in the first two places or a pad followed by a character fails; otherwise three, two or one bytes for no, one or two pads |
| Base64.DecodeEncode | src-tauri/src/lib.rs:107 | decoding undoes encoding |
| Base64.EncodeDecode | src-tauri/src/lib.rs:179 | whatever decodes is the encoding of its bytes, so only canonical input is accepted |
| Base64.GroupCanonical | src-tauri/src/lib.rs:179 | a whole group that decodes is the encoding of its bytes |
| Base64.PaddedCanonical | src-tauri/src/lib.rs:179 | a padded group that decodes is the encoding of its bytes |
| Requests.FindRule | src-tauri/src/modules/requests.rs:21-22 | the first rule matching the app; none exactly when no rule matches |
| Requests.ProcessName | src-tauri/src/modules/requests.rs:21-24 | the first matching rule's replacement, or the app's own name |
| Requests.LaterRulesIgnored | src-tauri/src/modules/requests.rs:21-22 | rules after the first match never change the name |
| Requests.FindRuleLaterIgnored | src-tauri/src/modules/requests.rs:21-22 | the first match in a list is the first match in every extension |
| Requests.BuildMediaUpdate | src-tauri/src/modules/requests.rs:7-40 | exactly the six keys, holding the fields with the rewritten process name |
| Requests.BuildData | src-tauri/src/modules/requests.rs:42-97 | timestamp and key; the name and description without trailing NULs; an icon URL or inline icon by prefix; the media object exactly when it has a non-empty title |
| Requests.ReportedNameDropsOnlyNuls | src-tauri/src/modules/requests.rs:65-69 | the reported name has no trailing NUL and differs from the original only by the NULs dropped |
| UploadImages.Pow10 | src-tauri/src/modules/upload_images.rs:40-42 | at least one |
| UploadImages.Digits | src-tauri/src/modules/upload_images.rs:40-42 | exactly `width` decimal digits |
| UploadImages.DigitsValue | src-tauri/src/modules/upload_images.rs:40-42 | the padded digits read back as the number |
| UploadImages.DecimalValue | src-tauri/src/modules/upload_images.rs:40-42 | a string of `k` digits denotes a number below ten to the `k` |
| UploadImages.ReplaceBucketPathTemplate | src-tauri/src/modules/upload_images.rs:37-43 | a path without placeholders is used as it is |
| UploadImages.TemplateFilled | src-tauri/src/modules/upload_images.rs:37-43 | a template whose literal parts hold no `{` becomes those parts, in order, with each `{year}`, `{month}` and `{day}` replaced by four, two and two digits of the date |
| UploadImages.FillYear | src-tauri/src/modules/upload_images.rs:40 | the year pass replaces exactly the `{year}` placeholders |
| UploadImages.FillMonth | src-tauri/src/modules/upload_images.rs:41 | the month pass replaces exactly the `{month}` placeholders, the year's digits already in |
| UploadImages.FillDay | src-tauri/src/modules/upload_images.rs:42 | the day pass replaces exactly the `{day}` placeholders |
| UploadImages.RenderPass | src-tauri/src/modules/upload_images.rs:39-42 | one `str::replace` pass over a rendered template turns the placeholders of its kind into the replacement and leaves every other piece as it was |
| UploadImages.Render | src-tauri/src/modules/upload_images.rs:37-43 | a template's text is its first piece followed by the rest |
| UploadImages.Placeholder | src-tauri/src/modules/upload_images.rs:40-42 | each placeholder opens with `{` and one more character |
| UploadImages.PlaceholdersClear | src-tauri/src/modules/upload_images.rs:40-42 | placeholders of different kinds cannot be mistaken for one another, whatever follows |
| UploadImages.Filling.With | src-tauri/src/modules/upload_images.rs:40-42 | filling one kind of placeholder changes that kind only |
| UploadImages.TemplateResolved | src-tauri/src/modules/upload_images.rs:37-43 | no `{year}`, `{month}` or `{day}` is left after the replacement |
| UploadImages.FileName | src-tauri/src/modules/upload_images.rs:48-49 | the hex digest followed by `.webp` |
| UploadImages.FullPath | src-tauri/src/modules/upload_images.rs:59-64 | ends with the file name; the file name alone for an empty prefix, otherwise the slash-trimmed prefix and `/` |
| UploadImages.UrlBase | src-tauri/src/modules/upload_images.rs:104-117 | exactly `TrimEnd` of the custom URL when one is set, otherwise `TrimEnd` of the endpoint, `/`, and the bucket |
| UploadImages.ObjectUrl | src-tauri/src/modules/upload_images.rs:104-117 | the base, `/` and the object path |
| UploadImages.ObjectPath | src-tauri/src/modules/upload_images.rs:59-64 | ends with the hash and `.webp`; the file name alone for an empty upload path |
| UploadImages.UploadStore.constructor | src-tauri/src/modules/upload_images.rs:26-28 | an empty cache and no upload attempted |
| UploadImages.UploadStore.UploadImage | src-tauri/src/modules/upload_images.rs:46-124 | disabled S3 fails; a cached hash returns its URL without uploading; otherwise success exactly when every step succeeds; an upload is attempted only after the credentials, the bucket and the conversion succeed, with the WebP bytes at the object path; on success the URL is cached when the cache file is written, and a failed write is ignored; a failure never changes the cache |
| UploadImages.UploadStore.PutAndRecord | src-tauri/src/modules/upload_images.rs:97-123 | the put is recorded; a failed put returns its message and leaves the cache; a successful one returns the object URL and caches it when the file is written |
| TauriCommands.AppState.constructor | src-tauri/src/lib.rs:209-221 | a reporter is created exactly when the stored config enables it; no covers are recorded as sent |
| TauriCommands.AppState.UpdateReporterConfig | src-tauri/src/lib.rs:142-167 | a failed save changes nothing; an enabled config updates the running reporter or creates one; a disabled one drops it |
| TauriCommands.AppState.GetReporterStatus | src-tauri/src/lib.rs:194-199 | whether a reporter exists |
| TauriCommands.AppState.UploadMediaArtwork | src-tauri/src/lib.rs:170-191 | invalid base64 fails first; otherwise the cover goes to the reporter, or the call fails without one |
| TauriCommands.AppState.UploadNewArtwork | src-tauri/src/lib.rs:89-119 | a cover not sent before is decoded and sent, and only then recorded; otherwise nothing changes |
| TauriCommands.CoverUpload | src-tauri/src/lib.rs:107-110 | the upload names the metadata's track id, which was not sent before |
| TauriCommands.AppState.GetPlaybackStateCmd | src-tauri/src/lib.rs:78-139 | the read state is returned unchanged; while playing with metadata, the calls are exactly the cover upload (when the cover step sends it) followed by the playback report (when a reporter exists), and the sent set gains exactly that track id; the sent set changes if and only if a cover is sent; otherwise nothing changes |
| LogsStore.Logs.constructor | src/stores/logsStore.ts:6-8 | an empty list |
| LogsStore.Logs.AddLog | src/stores/logsStore.ts:10-16 | the line goes last and only the newest 50 are kept, with the older ones unchanged |
| LogsStore.Logs.SetLogs | src/stores/logsStore.ts:17-20 | the newest 50 of the given lines |
| LogsStore.Logs.ClearLogs | src/stores/logsStore.ts:21-23 | the list is emptied |
| LogsStore.SetThenAddKeepsNewest | src/stores/logsStore.ts:10-20 | setting a history and adding lines leaves exactly the newest 50 lines of the whole history |
| Common.KeepLast | src/stores/logsStore.ts:14 | a suffix of at most `n` elements, the whole sequence when short enough |
| Common.AppendCapped | src/stores/logsStore.ts:10-16 | never more than `n` entries |
| Common.AppendAllCapped | src/stores/logsStore.ts:10-20 | no appends leave the log alone; otherwise at most `n` entries, with the last appended entry newest |
| Common.AppendCappedKeepsNewest | src/stores/logsStore.ts:10-16 | the appended entry is the newest kept, and only the front is dropped |
| Common.AppendAllCappedIsSuffix | src/stores/logsStore.ts:10-20 | a log capped after every append holds exactly the newest `n` entries of the history |
| Common.CountMatchesZero | src/platform/macos/media.rs:90-97 | no match is counted exactly when the pattern does not occur |
| Common.Contains | win-ui/ShikenMatrix/ViewModels/MainViewModel.cs:308 | true exactly when the pattern occurs at some position |
| Common.CountMatches | src/platform/macos/media.rs:90-97 | the matches counted fit in the string without overlapping |
| Common.CountMatchesSingle | src/platform/macos/media.rs:91-92 | a one-character pattern is counted once per occurrence of the character |
| Common.CountMatchesSplit | src/platform/macos/media.rs:90-97 | a pattern after a block it cannot start in is counted once, then counting goes on after it |
| Common.CountMatchesClear | src/platform/macos/media.rs:90-97 | a block the pattern cannot start in adds nothing to the count |
| Common.ReplaceAll | src-tauri/src/modules/upload_images.rs:39-42 | a string with no match counted is unchanged |
| Common.ReplaceAllSplit | src-tauri/src/modules/upload_images.rs:39-42 | `a + pat + b`, with `a` a block the pattern cannot start in, becomes `a`, the replacement, and `b` replaced |
| Common.ReplaceAllClear | src-tauri/src/modules/upload_images.rs:39-42 | a block the pattern cannot start in is copied unchanged ahead of the replaced rest |
| Common.ReplaceAllShort | src-tauri/src/modules/upload_images.rs:39-42 | input shorter than the pattern is unchanged |
| Common.ReplaceAllSkip | src-tauri/src/modules/upload_images.rs:39-42 | an element that does not start the pattern is kept, and replacement goes on after it |
| Common.ForeignIsClear | src-tauri/src/modules/upload_images.rs:39-42 | the pattern cannot start in a block without its first element |
| Common.MismatchBlocks | src-tauri/src/modules/upload_images.rs:39-42 | a block that disagrees with the pattern keeps it from starting there, whatever follows |
| Common.ReplaceAllAvoids | src-tauri/src/modules/upload_images.rs:39-42 | replacing a pattern with text foreign to another pattern introduces no occurrence of it |
| Common.TrimEnd | src-tauri/src/modules/requests.rs:65 | a prefix with no trailing instance of the character, having dropped only that character |
| Common.TrimStart | src-tauri/src/modules/upload_images.rs:63 | a suffix with no leading instance of the character, having dropped only that character |
| Common.Trim | src-tauri/src/modules/upload_images.rs:63 | exactly the slice of the input between a leading and a trailing run of the character, with no instance of it at either end; unchanged when there was none |
| Common.TrimSlice | src-tauri/src/modules/upload_images.rs:63 | trimming the end, then the start, leaves that slice, with only the character dropped on either side |
| Common.IsBlank | win-ui/ShikenMatrix/ViewModels/MainViewModel.cs:359 | empty, or made only of white space |
| Common.ToLowerIgnoredByIgnoreCase | win-ui/ShikenMatrix/ViewModels/MainViewModel.cs:305-308 | lower-casing the search first does not change an ignore-case match |

## Left out

- The library's reporter itself is not modelled: its WebSocket connection, the window and media readers, and the report loop. Only the C entry points that start it, stop it and poll it are. The connection flag is a parameter.
- Configuration loading and saving in the library and in `get_config`/`create_config` are not modelled. The shells' answers from them are parameters.
- The worker's `sm_reporter_get_status` always returns a null error pointer, so the shells' error handling never fires with this worker. The model keeps that handling and proves properties about it for any error the library might return.
- Neither managed bridge frees `SmStatus.last_error`. This is not modelled as a leak, because the pointer is always null.
- Windows `StopReporter` does not call `ClearCallbacks`. The model follows the code.
- The Swift `SmConfig` has no media-reporting field, so its layout differs from the library's. The model gives it only the fields Swift sets.
- The Swift `isRunning` and `stopReporter` are one-line pass-throughs, modelled inside the views' calls.
- `MainViewModel`'s constructor calls `GetVersion` on the bridge (`MainViewModel.cs:80`), and the version shown is not modelled. The bridge source does not define that method.
- Permission probing in `OnLoaded` (`CheckPermissions`) and the app's accessibility commands are not modelled.
- The tray icon, the status bar manager, XAML controls and converters are not modelled.
- Timers and the dispatcher queue are modelled as calls made one after another. Concurrency, locks, lock poisoning, panics and `catch_unwind` are left out.
- Floating-point playback rates and positions are carried as opaque reals without arithmetic.
- Timestamps, the SHA-256 digest, the S3 calls, the upload cache file's read and write, and the WebP conversion are parameters.
- Image decoding is a parameter, which gives only whether the bytes decode.
- `send_request` and the HTTP transport in `requests.rs` are not modelled.
- The Tauri platform readers (`get_media`, `get_smtc`, the window readers) are not modelled.
- The text the `base64` crate appends to a decode error is not modelled. The model's message ends at the fixed prefix.
- UploadImages.ValidDate: years above 9999 are excluded, because the model writes `%Y` as four digits.
- Log entries have no timestamps or identifiers.
- Utf8.Encode: strings are sequences of Unicode scalar values, so a lone UTF-16 surrogate cannot occur. .NET's encoder writes one as U+FFFD (three bytes), which the model does not show.
- WinViewModel.MatchesSearchIgnoresCase: case mapping is ASCII only. `ToLowerInvariant` and `OrdinalIgnoreCase` (`MainViewModel.cs:305-308`) map every Unicode letter, so "é" finds "Échec" there but not in the model. For letters whose invariant lower case does not upper-case back to the same letter, lower-casing the search first can change the result, and the model does not show this.
- WinViewModel.MatchesSearch: case mapping is ASCII only. `OrdinalIgnoreCase` (`MainViewModel.cs:305-308`) folds every Unicode letter, so a non-ASCII search that differs from the message only in case matches there and not in the model.
- Common.ToLowerIgnoredByIgnoreCase: holds for the ASCII-only mapping of the model. Under .NET's `ToLowerInvariant` and `OrdinalIgnoreCase`, some letters lower-case to a letter that does not upper-case back to the same one, and for those the claim fails.
- NativeMethods.PtrToStringUTF8: a block with no zero byte gives `None` in the model. That is an abstraction. `Marshal.ReadByte` in the source reads on into the memory after the block. It may find a zero there and return garbage, or it may raise an access violation, which a plain `catch` does not handle, so the process ends.
- NativeMethods.PtrToByteArray: a `size` larger than the block gives null in the model. That is an abstraction. `Marshal.Copy` in the source copies `size` bytes from whatever memory follows the block, returning garbage or ending the process with an access violation.
- RustBridgeWin.GetArtworkImage: the `size <= data.Length` condition on a returned image comes from the same abstraction of `PtrToByteArray`. In the source, a `size` past the block makes `Marshal.Copy` read neighbouring memory or end the process, not return no image.
- WinViewModel.Filter: matches with the ASCII-only case mapping of `MatchesSearch`, so non-ASCII letters are compared exactly.
- WinViewModel.FilterMembers: the membership it states uses the ASCII-only case mapping of `MatchesSearch`.
- WinViewModel.MainViewModel.FilteredLogs: filters with the ASCII-only case mapping of `MatchesSearch`.

## Findings

| source | as written | input that shows it | evidently intended | confidence | as-written member | corrected member |
|---|---|---|---|---|---|---|
| macos-ui/ShikenMatrix/ShikenMatrix/RustBridge.swift:92-99 (and 114-121) | `guard let ws = strdup(..), let tok = strdup(..) else { return .. }` returns before the `defer` that frees the copies is registered | the URL copy succeeds and the token copy fails (`wsDup = true`, `tokDup = false`) | every copy is freed, including the URL copy when the token copy fails | not executed | SwiftBridge.GuardedCopiesAsWritten, SwiftBridge.AsWrittenLeaksUrlCopy | SwiftBridge.GuardedCopies, SwiftBridge.GuardedCopiesBalanced |
