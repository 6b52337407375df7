# scrcpy-gui connection and session bookkeeping, in Dafny

This project models the core of a desktop front end for `adb` and `scrcpy`.
It covers how the front end discovers Android devices, connects and pairs
them over the network, tracks which devices have a mirroring session
running, and prepares and reads the command lines of the two tools.

- `hook.dfy` (module `Hook`) is the `useScrcpy` hook. `HookState` is the
  hook's state as a value. The functions over it (`Refreshed`,
  `ConnectState`, `PairState`, `StatusChanged`, `HistoryAdded`,
  `Hydrated`, `OptionsListed`, …) are its transitions. The class
  `ScrcpyHook` holds the same state in fields, and each of its methods
  performs one transition step by step. Each method is proved to end in
  the state that the transition function gives. A ghost `trace` records
  the backend calls (`get_devices`, `adb_connect`, the cleanup
  `adb disconnect`, `adb_pair`, the settle delays), so that call counts
  and their order can be stated.
  - Every reply of the backend is an input to these methods. `Ok` carries
    what `invoke` resolved to. `Err` carries the rejection that a `catch`
    block sees.
  - The 500 ms and 1000 ms delays are each one `Settle` step of the trace.
- `logbuffer.dfy` (module `LogBuffer`) is the log buffer. It has the
  append as the source writes it, `[...prev.slice(-100), x]`, and the
  windowed append that the rest of the model uses (see Findings).
- `config.dfy` (module `Config`) is the session configuration. It is a
  map from field to value, because the source edits it as a JavaScript
  object (`{ ...config, [f]: v }`, `{ ...prev, ...parsed }`). An optional
  field that is absent is `undefined`.
- `commands.dfy` (module `Commands`) is the text logic of the Rust
  backend:
  - `split_args`, the quote-aware tokenizer, written as a loop and proved
    equal to a function;
  - the `adb devices` filter and the `adb mdns services` parser;
  - the argument assembly of `run_terminal_command`;
  - the success rules of `adb_connect` and `adb_pair`.
- `scrcpy_args.dfy` (module `ScrcpyArgs`) is `build_scrcpy_args`. The
  method pushes flags one at a time and is proved equal to a function
  built from segments. Lemmas state which settings matter in which
  session mode.
- `camera.dfy` (module `Cameras`) holds hand-written recognisers for the
  two `--list-cameras` line forms, and the loop that collects the cameras.
- `control_panel.dfy`, `sidebar.dfy` and `app.dfy` are the configuration
  edits and dispatch rules of the three UI components. The sidebar's form
  is a class with its three text fields and a ghost record of the
  `onConnect` and `onPair` calls.
- `text.dfy`, `seqs.dfy` and `wrappers.dfy` are helpers: string
  operations, duplicate-free sequences, and `Option` and `Result`.

Two points about how the model reads the code:

- The history accepts any id that contains `:` (useScrcpy.ts:192), not
  only a well-formed `host:port`.
- As written, the discovery-error log line interpolates `res.error`
  (useScrcpy.ts:238), so it does not carry the backend's message.
  `Hook.DiscoveryErrorAsWrittenDropsMessage` models that line. The rest
  of the model logs the corrected line, `Hook.DiscoveryError`, which
  carries the message (see Findings).

## Model

| member | source | states |
|---|---|---|
| `LogBuffer.KeepLastThenAppend` | src/hooks/useScrcpy.ts:145 | The append as written: the last element is the new entry, the others are a suffix of the old buffer in order, and the length is at most 101. |
| `LogBuffer.AsWrittenWindowOverflow` | src/hooks/useScrcpy.ts:220 | A buffer that already holds 100 entries grows to 101 with the as-written append. |
| `LogBuffer.UnboundedAppendExceedsWindow` | src/hooks/useScrcpy.ts:394 | The unbounded append at lines 271 and 394 takes a 101-entry buffer to 102. |
| `LogBuffer.Append` | src/hooks/useScrcpy.ts:344 | The corrected append, which replaces the source's keep-100-then-append here and at every other append (see Findings): the result holds min(100, old + new) entries, and they are the last entries of the old buffer followed by the new ones. |
| `LogBuffer.AppendKeepsWindow` | src/hooks/useScrcpy.ts:301 | Under the corrected append, the buffer never exceeds 100 entries. A batch of at most 100 lands intact at the tail. Below the window, nothing is dropped. |
| `LogBuffer.KeepLastThenAppendAll` | src/hooks/useScrcpy.ts:344 | The batch append as written (also lines 301 and 362): the batch lands whole at the tail after at most the last 100 old entries, so the length is min(100, old) plus the batch. |
| `LogBuffer.AsWrittenBatchOverflow` | src/hooks/useScrcpy.ts:362 | A full buffer plus a batch of n lines holds 100 + n entries under the as-written batch append. |
| `LogBuffer.KeepLastThenAppendIsBatch` | src/hooks/useScrcpy.ts:145 | The single-line append is the batch append of a one-line batch. |
| `LogBuffer.AppendTwice` | src/hooks/useScrcpy.ts:219-225 | Appending two batches one after the other is the same as appending them together. |
| `Config.Defaults` | src/hooks/useScrcpy.ts:50-65 | The initial configuration has no device, is in mirror mode, and has no custom path, recording or OTG setting. |
| `Config.Set` | src/components/ControlPanel.tsx:69 | `{ ...c, [f]: v }` maps `f` to `v`. |
| `Config.SetFrame` | src/components/ControlPanel.tsx:69 | A one-field edit leaves every other field present or absent exactly as before, with the same value. |
| `Config.Unset` | src/App.tsx:165 | Setting a field to `undefined` removes it. |
| `Config.UnsetFrame` | src/App.tsx:165 | Removing one field leaves every other field as it was. |
| `Config.Merge` | src/hooks/useScrcpy.ts:84 | Every saved field of the declared type overrides the current one. Every other field keeps its current value, so a field missing from the saved blob keeps its default. |
| `Hook.Initial` | src/hooks/useScrcpy.ts:34-66 | The hook starts with the default configuration, no logs, no active device, and is not initialised, so nothing is stored. The invariant holds. |
| `Hook.Hydrated` | src/hooks/useScrcpy.ts:80-123 | Mount merges a saved configuration (if any) over the current one, then marks the hook initialised. From then on the stored configuration equals the live one. |
| `Hook.VideosDirApplied` | src/hooks/useScrcpy.ts:95-113 | The Videos directory becomes the recording path only when none is set and the directory call succeeded. Otherwise nothing changes. No other field changes. |
| `Hook.ConfigSet` | src/hooks/useScrcpy.ts:119-123 | A configuration change is stored exactly when the hook is initialised. Before that, the stored value is untouched. |
| `Hook.MruInsert` | src/hooks/useScrcpy.ts:194 | The endpoint comes first and appears nowhere else. The rest is the old list without it, in order, cut so that the list holds at most 10 entries. |
| `Hook.MruKeepsNoDup` | src/hooks/useScrcpy.ts:194 | A duplicate-free history stays duplicate-free. |
| `Hook.MruIdempotent` | src/hooks/useScrcpy.ts:191-197 | Adding the most recent endpoint again changes nothing. |
| `Hook.MruRoomKeepsAll` | src/hooks/useScrcpy.ts:194 | With fewer than 10 entries, no old entry is dropped. |
| `Hook.HistoryAdded` | src/hooks/useScrcpy.ts:191-198 | An id without `:` leaves the state unchanged. Otherwise the history becomes the MRU insertion and is stored. The invariant is kept. |
| `Hook.HistoryCleared` | src/hooks/useScrcpy.ts:200-203 | The history is empty and the stored copy is removed. |
| `Hook.HistoryLoaded` | src/hooks/useScrcpy.ts:180-189 | A parsable saved history replaces the current one. Otherwise the current history is kept. |
| `Hook.StatusUpdate` | src/hooks/useScrcpy.ts:151-157 | A running event puts the device in the set without duplicates. A stopped event removes every occurrence. No other device's membership changes. |
| `Hook.StatusAddKeepsOrder` | src/hooks/useScrcpy.ts:153 | On a duplicate-free set, a running event keeps the existing order and appends the device once, only if it is new. |
| `Hook.StatusIdempotent` | src/hooks/useScrcpy.ts:150-157 | A repeated status event changes nothing. |
| `Hook.StatusChanged` | src/hooks/useScrcpy.ts:148-157 | Only a payload with a non-empty device and a boolean `running` changes the running set. Any other payload leaves the state unchanged. |
| `Hook.NoSessionWithoutDevice` | src/hooks/useScrcpy.ts:493 | Without an active device, no session counts as running. |
| `Hook.Without` | src/hooks/useScrcpy.ts:216-217 | The diff filter keeps exactly the ids of the first list that are not in the second, and is no longer than the first list. |
| `Hook.WithoutNoDup` | src/hooks/useScrcpy.ts:216-217 | A duplicate-free snapshot gives a duplicate-free diff. |
| `Hook.Tagged` | src/hooks/useScrcpy.ts:219-225 | One log line per id, in order, each made of the prefix and that id. |
| `Hook.TaggedUpToAll` | src/hooks/useScrcpy.ts:219-225 | Logging the ids one at a time, as `forEach` does, gives the tagged lines of those ids. |
| `Hook.DiscoveryErrorAsWrittenDropsMessage` | src/hooks/useScrcpy.ts:238 | As written, every backend error gives the same line, and it differs from the corrected line whenever the message is not "true". |
| `Hook.DiscoveryError` | src/hooks/useScrcpy.ts:238 | The corrected discovery-error line is the prefix followed by the backend's message. |
| `Hook.RefreshFailureLogsOnce` | src/hooks/useScrcpy.ts:237-242 | A backend error or a rejected call appends exactly one line. |
| `Hook.NewDeviceLogged` | src/hooks/useScrcpy.ts:216-221 | A "New device discovered" line names `d` if and only if `d` is in the new snapshot and not in the previous one. |
| `Hook.GoneDeviceLogged` | src/hooks/useScrcpy.ts:223-225 | A "Device disconnected" line names `d` if and only if `d` was in the previous snapshot and is not in the new one. |
| `Hook.DiscoveryActiveLogged` | src/hooks/useScrcpy.ts:230-232 | The "Discovery active" line is logged if and only if the refresh is not silent and both diffs are empty. |
| `Hook.NewDeviceLoggedOnce` | src/hooks/useScrcpy.ts:216-221 | For a duplicate-free snapshot, no added id is announced twice. |
| `Hook.RefreshEnded` | src/hooks/useScrcpy.ts:208-245 | After a started refresh, the flag is down and the refresh's lines are appended. A listing becomes the snapshot. When no device was active and the listing is non-empty, its first id becomes active; otherwise the active device is unchanged. The detected cameras are cleared exactly when the active device changes. The stored config, stored history and initialised flag are unchanged. An error leaves everything but the logs and the flag unchanged. History, running set and configuration are untouched. |
| `Hook.Refreshed` | src/hooks/useScrcpy.ts:205-207 | While a refresh is in flight, the state is exactly unchanged. Otherwise the refresh runs to its end. |
| `Hook.ConnectFinal` | src/hooks/useScrcpy.ts:315-326 | Without a transient failure, the first reply is final. With one, the rejection of the cleanup is final if there is one, and the second reply otherwise. |
| `Hook.ReplyOf` | src/hooks/useScrcpy.ts:347-350 | The returned reply succeeds exactly when the final reply resolved with success. |
| `Hook.ConnectAttemptsAtMostTwo` | src/hooks/useScrcpy.ts:311-326 | `connectDevice` makes at most two `adb_connect` calls. It makes two exactly when the first reply was a transient failure and the cleanup resolved. |
| `Hook.ConnectCleanupIff` | src/hooks/useScrcpy.ts:318-321 | The cleanup disconnect is issued if and only if the first reply failed with "failed to connect" or "cannot connect". |
| `Hook.StaleTipIff` | src/hooks/useScrcpy.ts:338-345 | The stale-port tip is logged if and only if the final reply is a failure whose message holds one of the two transient phrases. |
| `Hook.ConnectFinished` | src/hooks/useScrcpy.ts:328-353 | After the outcome is applied, the flag is down and the invariant holds. |
| `Hook.ConnectSucceeded` | src/hooks/useScrcpy.ts:328-336 | After a successful connection, the history holds the endpoint at the front and the config and running set are unchanged. The logs gain the connected line, then the silent refresh's lines. A listing replaces the device list and the snapshot, and it selects its first device when none was active; a failed listing leaves them alone. The invariant is kept. |
| `Hook.ConnectState` | src/hooks/useScrcpy.ts:311-354 | After `connectDevice`, the refresh flag is down whatever the replies were, and the invariant holds. |
| `Hook.ConnectSucceedsAs` | src/hooks/useScrcpy.ts:311-336 | A successful connection, retried or not, is the same state as logging all its lines at once, adding the endpoint to the history and running the silent refresh. |
| `Hook.ConnectOutcome` | src/hooks/useScrcpy.ts:311-354 | On success, the whole state is the silent refresh applied after logging the connection's lines and adding the endpoint to the history. On any other outcome, only the connection's lines are logged and the flag is lowered. |
| `Hook.ConnectSuccessEffects` | src/hooks/useScrcpy.ts:328-336 | After a successful connection, the endpoint heads the history and the config and running set are unchanged. The logs hold the connection's lines, then the refresh's lines. A listing replaces the device list and snapshot and selects its first device when none was active; a failed listing leaves them alone. |
| `Hook.ProtocolTipIff` | src/hooks/useScrcpy.ts:296-301 | After the failure line, the Kill ADB tip is logged if and only if the message contains "protocol fault". |
| `Hook.PairState` | src/hooks/useScrcpy.ts:289-309 | A rejection logs one error line. A failure logs the failure lines. A success logs one line and then refreshes silently, unless a refresh is in flight. |
| `Hook.OptionsListed` | src/hooks/useScrcpy.ts:356-403 | Only the logs and the detected cameras change. A rejected call logs the "Running scrcpy <arg>..." line and then the "Error: <e>" line. A reply logs the running line and then `ListingLogs`. The cameras become the parse exactly for a non-empty `--list-cameras` reply whose parse is non-empty, and are kept otherwise. |
| `Hook.ListingLogs` | src/hooks/useScrcpy.ts:360-395 | A non-empty output logs its lines, followed by the "No cameras parsed" line when it is a camera listing with no recognised camera. An empty output logs nothing. |
| `Hook.OptionsShown` | src/hooks/useScrcpy.ts:360-396 | An empty output changes nothing. Otherwise the logs gain exactly the output's lines, then the "No cameras parsed" line when a camera listing parses to no camera. The cameras become the parse exactly when a camera listing names some, and are kept otherwise. Nothing else changes, and the hook invariant is kept. |
| `Hook.LinesShown` | src/hooks/useScrcpy.ts:362-395 | The same, for the output given as its lines. |
| `Hook.NoCamerasLogged` | src/hooks/useScrcpy.ts:394 | The diagnostic line after the listing is one write of the listing plus that line. |
| `Hook.LoggedTwice` | src/hooks/useScrcpy.ts:358-402 | Two log writes in a row equal one write of both batches, and keep the invariant. |
| `Hook.RunningThenShown` | src/hooks/useScrcpy.ts:358-362 | The running line and then the listing's lines land in the log in that order. |
| `Hook.ScrcpyHook.constructor` | src/hooks/useScrcpy.ts:34-66 | The object starts in the initial state with an empty call trace. |
| `Hook.ScrcpyHook.AppendLogs` | src/hooks/useScrcpy.ts:301 | Only the logs change, by the corrected windowed append (the source keeps 100 entries and then adds the batch; see Findings). The trace is unchanged. |
| `Hook.ScrcpyHook.OnLog` | src/hooks/useScrcpy.ts:144-146 | A `scrcpy-log` payload is appended to the logs. |
| `Hook.ScrcpyHook.LogEach` | src/hooks/useScrcpy.ts:219-225 | The loop appends one tagged line per id, in order, and changes nothing else. |
| `Hook.ScrcpyHook.OnStatus` | src/hooks/useScrcpy.ts:148-157 | The object's state becomes `StatusChanged` of the event. |
| `Hook.ScrcpyHook.OnDownloadComplete` | src/hooks/useScrcpy.ts:163-168 | A non-silent refresh, then a binary check, in that order in the trace. The refresh is dropped if the object's flag shows one in flight. The source's listener is registered once, with empty dependencies, so it reads `isRefreshing` as false from its first render and never drops the refresh (see the `Hook.ScrcpyHook.RefreshDevices` line under Left out). |
| `Hook.ScrcpyHook.Hydrate` | src/hooks/useScrcpy.ts:80-88 | The object's state becomes `Hydrated` of the saved blob. One `check_scrcpy` call is recorded exactly when the saved blob holds a truthy `scrcpyPath`, and no other call. |
| `Hook.ScrcpyHook.LoadHistory` | src/hooks/useScrcpy.ts:180-189 | The object's state becomes `HistoryLoaded`. |
| `Hook.ScrcpyHook.ApplyVideosDir` | src/hooks/useScrcpy.ts:95-113 | One `get_videos_dir` call, then the state becomes `VideosDirApplied` of its reply. |
| `Hook.ScrcpyHook.SetConfig` | src/hooks/useScrcpy.ts:119-123 | The object's state becomes `ConfigSet`, so storage follows only once initialised. |
| `Hook.ScrcpyHook.SetActiveDevice` | src/hooks/useScrcpy.ts:131-134 | The active device is set, and the detected cameras are cleared when it changes. |
| `Hook.ScrcpyHook.AddToHistory` | src/hooks/useScrcpy.ts:191-198 | The object's state becomes `HistoryAdded`. |
| `Hook.ScrcpyHook.ClearHistory` | src/hooks/useScrcpy.ts:200-203 | The object's state becomes `HistoryCleared`. |
| `Hook.ScrcpyHook.BeginRefresh` | src/hooks/useScrcpy.ts:205-209 | With a refresh in flight, nothing changes and no call is made. Otherwise the flag is raised and exactly one `get_devices` call is recorded. |
| `Hook.ScrcpyHook.LogDiff` | src/hooks/useScrcpy.ts:216-232 | Appends the added lines, the removed lines and the optional summary, exactly the refresh's log lines for a listing. |
| `Hook.ScrcpyHook.ApplyListing` | src/hooks/useScrcpy.ts:211-236 | The state becomes `Listing`: the diff is logged, the snapshot is replaced, and a device is auto-selected. |
| `Hook.ScrcpyHook.EndRefresh` | src/hooks/useScrcpy.ts:211-245 | The state becomes `RefreshEnded` of the reply. |
| `Hook.ScrcpyHook.RefreshDevices` | src/hooks/useScrcpy.ts:205-246 | Runs exactly when no refresh was in flight. The state becomes `Refreshed`, and the trace gains one `get_devices` call or none. |
| `Hook.ScrcpyHook.Attempt` | src/hooks/useScrcpy.ts:315-326 | Returns the reply that `connectDevice` goes on with, logs the retry line only on a retry, and records the attempt calls. |
| `Hook.ScrcpyHook.Retry` | src/hooks/useScrcpy.ts:319-325 | Logs the retry and records the disconnect. If the disconnect resolved, it also records the 500 ms settle and the second `adb_connect`. |
| `Hook.ScrcpyHook.Finish` | src/hooks/useScrcpy.ts:328-353 | Applies the final reply: the state becomes `ConnectFinished`. A success adds the 1000 ms settle and one `get_devices` to the trace. |
| `Hook.ScrcpyHook.Succeeded` | src/hooks/useScrcpy.ts:328-336 | Logs, adds to history, settles, lowers the flag and refreshes silently. The state becomes `ConnectSucceeded`. |
| `Hook.ScrcpyHook.ConnectDevice` | src/hooks/useScrcpy.ts:311-354 | Returns `ReplyOf` the final reply. The state becomes `ConnectState`. The trace gains the attempt calls (one `adb_connect`, or the retry's disconnect, settle and second `adb_connect`), then the settle and `get_devices` of a success. |
| `Hook.ScrcpyHook.PairDevice` | src/hooks/useScrcpy.ts:289-309 | Returns `ReplyOf` the pairing reply. The state becomes `PairState`. The trace gains the `adb_pair` call, plus a `get_devices` only on success with no refresh in flight. |
| `Hook.ScrcpyHook.ListScrcpyOptions` | src/hooks/useScrcpy.ts:356-403 | One `list_scrcpy_options` call. The state becomes `OptionsListed`. |
| `Hook.ScrcpyHook.ShowOptions` | src/hooks/useScrcpy.ts:360-396 | A non-empty reply puts its lines in the log. A camera listing then either replaces the cameras with its parse or logs the "no cameras" line. The state becomes `OptionsShown`. |
| `Cameras.WordRun` | src/hooks/useScrcpy.ts:371 | `\w+`: the longest prefix made of word characters. |
| `Cameras.UpToParen` | src/hooks/useScrcpy.ts:371 | `(.*?)\)`: a match splits the text at a `)`, and the part before it holds no `)` and no line terminator. |
| `Cameras.LineRest` | src/hooks/useScrcpy.ts:372 | `.*`: the longest prefix without a line terminator. |
| `Cameras.MatchNewAt` | src/hooks/useScrcpy.ts:371 | A match at position `i` starts with `--camera-id=` and yields a non-empty word id. |
| `Cameras.MatchNew` | src/hooks/useScrcpy.ts:371 | The unanchored scrcpy 3.x match yields a non-empty word id. |
| `Cameras.MatchOld` | src/hooks/useScrcpy.ts:372 | The anchored legacy match yields a non-empty word id. |
| `Cameras.ParseLine` | src/hooks/useScrcpy.ts:368-389 | A recognised line gives a camera with a non-empty word id. |
| `Cameras.CamerasOf` | src/hooks/useScrcpy.ts:366-390 | At most one camera per line. |
| `Cameras.ParseCameras` | src/hooks/useScrcpy.ts:361-390 | The loop's result is exactly `CamerasOf` of the output's lines. |
| `Cameras.CamerasOfAppend` | src/hooks/useScrcpy.ts:367 | The lines are read independently: the cameras of two blocks are those of each, in order. |
| `Cameras.SkippedLine` | src/hooks/useScrcpy.ts:374-389 | A line that matches neither form contributes nothing, wherever it stands. |
| `Cameras.CamerasComeFromLines` | src/hooks/useScrcpy.ts:374-389 | Every camera is the parse of some line of the output. |
| `Cameras.NewFormRoundTrip` | src/hooks/useScrcpy.ts:369-380 | An indented `--camera-id=<id> (<details>)` line parses to the camera `<id>` named `<id>: <details>`. |
| `Cameras.OldFormRoundTrip` | src/hooks/useScrcpy.ts:370-388 | An indented `- [<id>] (<res>) <meta>` line parses to `<id>: <meta or Camera> (<res>)`. |
| `Cameras.MatchNewNeedsEquals` | src/hooks/useScrcpy.ts:371 | A line without `=` never matches the new form. |
| `Cameras.NewFormFirst` | src/hooks/useScrcpy.ts:374-381 | When the new form matches, it wins over the legacy form. |
| `Commands.ScanQuoteParity` | src-tauri/src/commands.rs:324-327 | After reading `s`, the tokenizer is inside quotes if and only if `s` holds an odd number of `"`. |
| `Commands.ScanTokens` | src-tauri/src/commands.rs:328-333 | Every finished token is non-empty and free of `"`. |
| `Commands.ScanKept` | src-tauri/src/commands.rs:324-335 | The tokens read so far, concatenated, are the input without quotes and without unquoted whitespace. |
| `Commands.ScanNoQuotesNoSpaces` | src-tauri/src/commands.rs:327 | Without quote characters, no token holds whitespace. |
| `Commands.Finish` | src-tauri/src/commands.rs:336-338 | Pushing the pending token keeps the concatenation, and adds nothing when it is empty. |
| `Commands.SplitArgsSpec` | src-tauri/src/commands.rs:318-343 | Returns "Unclosed quotes" exactly when the number of `"` is odd. Otherwise the tokens are non-empty and quote-free, concatenate to the kept characters, and hold no whitespace when the input had no quotes. Token boundaries are fixed by `SplitArgsWithoutQuotes` and `QuotedSegmentOneToken`. |
| `Commands.SplitArgsWithoutQuotes` | src-tauri/src/commands.rs:318-343 | Without quote characters, the tokens are exactly Rust's `split_whitespace` words: the maximal runs of non-whitespace, in order. |
| `Commands.QuotedSegmentOneToken` | src-tauri/src/commands.rs:324-335 | After an even number of quotes, a quoted segment without quotes inside joins the pending token whole. No token ends inside it, and its whitespace is kept. |
| `Commands.ScanAllAppend` | src-tauri/src/commands.rs:324-335 | Reading p then q is reading q from the state that p leaves. |
| `Commands.ScanFromWords` | src-tauri/src/commands.rs:324-338 | Outside quotes, quote-free text splits at whitespace as `split_whitespace` splits the pending token followed by that text. |
| `Commands.SplitArgs` | src-tauri/src/commands.rs:318-343 | The character loop returns exactly `SplitArgsSpec`. |
| `Commands.QuotedArgumentExample` | src-tauri/src/commands.rs:318-343 | `a "b c"` splits into `a` and `b c`. |
| `Commands.DeviceIdOf` | src-tauri/src/commands.rs:121 | The id taken from a line holds no tab. |
| `Commands.SelectDevices` | src-tauri/src/commands.rs:120-122 | Every id kept is non-empty, tab-free and free of `._tcp` and `._udp`. There is at most one id per line. |
| `Commands.SelectDevicesComplete` | src-tauri/src/commands.rs:120-122 | Every device line with an acceptable id contributes that id. |
| `Commands.SelectDevicesSound` | src-tauri/src/commands.rs:120-122 | Every listed id comes from a device line with that id. |
| `Commands.SelectDevicesAppend` | src-tauri/src/commands.rs:118-123 | The filter keeps the input order: the ids of `a + b` are those of `a`, then those of `b`. |
| `Commands.GetDevices` | src-tauri/src/commands.rs:114-133 | A listing exactly on a good exit status, and it is the filter over the lines after the header. Otherwise "ADB returned error", or the spawn error. |
| `Commands.HeaderIgnored` | src-tauri/src/commands.rs:119 | The first line is never inspected. |
| `Commands.SkipHeader` | src-tauri/src/commands.rs:119 | `.skip(1)`: a non-empty listing loses exactly its first line. |
| `Commands.ServiceOf` | src-tauri/src/commands.rs:153-157 | A line gives a service exactly when it has at least 3 tab-separated fields. |
| `Commands.ServicesOf` | src-tauri/src/commands.rs:152-157 | At most one service per line. |
| `Commands.KeyDedup` | src-tauri/src/commands.rs:158-166 | The string-key de-duplication as written keeps only services of the input, with pairwise different keys and every key of the input. |
| `Commands.KeyCollisionDropsService` | src-tauri/src/commands.rs:158-166 | Two different services whose fields contain `\|` share a key, and the key de-duplication loses the second one. |
| `Commands.CollidingKeysMerge` | src-tauri/src/commands.rs:158-166 | Of two different services with the same key, only the first is kept. De-duplicating the triples keeps both. |
| `Commands.KeyInjective` | src-tauri/src/commands.rs:158 | Without `\|` in name and service, the key determines the service. |
| `Commands.KeyDedupIsDedup` | src-tauri/src/commands.rs:158-166 | On output without `\|`, the key de-duplication equals de-duplicating the triples. |
| `Commands.GetMdnsDevices` | src-tauri/src/commands.rs:146-177 | The services are exactly the de-duplicated services of the lines after the header, each at its first occurrence and duplicate-free. A bad status or spawn error gives the matching error. |
| `Commands.CollectServices` | src-tauri/src/commands.rs:149-166 | The loop returns exactly the de-duplicated services of the lines, in order of first occurrence. |
| `Commands.RestOf` | src-tauri/src/commands.rs:273-275 | Removes at most the first token, and what remains is a suffix of the tokens. |
| `Commands.AssembleTerminalCommand` | src-tauri/src/commands.rs:261-298 | "No command provided" exactly for an empty token list. Otherwise the binary follows the first token, and `-s <device>` is prepended exactly when no serial flag is present, the device is non-empty and the command is not a global adb command. The typed arguments end the vector in order. |
| `Commands.AssembleArgs` | src-tauri/src/commands.rs:265-298 | For a non-empty token list, the binary and the argument vector as above. |
| `Commands.PushAll` | src-tauri/src/commands.rs:296-298 | The loop appends all parts in order. |
| `Commands.LeadingBinaryIgnoresCase` | src-tauri/src/commands.rs:265-275 | `ScRcPy` selects scrcpy, and `ADB` is dropped and selects adb. Another first token is kept and runs adb. |
| `Commands.MessageOf` | src-tauri/src/commands.rs:206 | The message is stdout, or stderr when stdout is empty, and is empty only if both are. |
| `Commands.AdbConnect` | src-tauri/src/commands.rs:185-213 | Succeeds exactly on a good exit status with stdout free of "cannot connect" and "failed". A timeout is a failed reply, and a spawn or wait error is an error. |
| `Commands.TransientReplyIsFailure` | src-tauri/src/commands.rs:205 | A reply whose stdout message reads as transient is never a success. |
| `Commands.TimeoutIsNotTransient` | src-tauri/src/commands.rs:209-211 | A timed-out connection is not retried. |
| `Commands.AdbPair` | src-tauri/src/commands.rs:221-237 | Succeeds exactly on a good exit status with "Successfully paired" in stdout or stderr. The message is stdout, else stderr. A spawn error is an error. |
| `Commands.PairSuccessHasMessage` | src-tauri/src/commands.rs:235-237 | A successful pairing carries a non-empty message. |
| `ScrcpyArgs.JoinPath` | src-tauri/src/commands.rs:584 | The joined path ends with the file name. |
| `ScrcpyArgs.ScrcpyArgv` | src-tauri/src/commands.rs:482-590 | The vector starts with the selector, followed immediately by the codec flag. |
| `ScrcpyArgs.BuildScrcpyArgs` | src-tauri/src/commands.rs:482-590 | The push-by-push method returns exactly `ScrcpyArgv`. |
| `ScrcpyArgs.PushSessionFlags` | src-tauri/src/commands.rs:507-587 | The non-OTG branch gives the leading, frame-rate and trailing flags in that order. |
| `ScrcpyArgs.PushLeadingFlags` | src-tauri/src/commands.rs:507-552 | Bitrate, window, orientation, control and mode flags, in source order. |
| `ScrcpyArgs.PushTrailingFlags` | src-tauri/src/commands.rs:567-587 | Size limit, then recording. |
| `ScrcpyArgs.PushWindowFlags` | src-tauri/src/commands.rs:512-515 | Audio off and the three window switches. |
| `ScrcpyArgs.PushControlFlags` | src-tauri/src/commands.rs:524-528 | Stay-awake and screen-off, outside camera mode only. |
| `ScrcpyArgs.PushFpsFlags` | src-tauri/src/commands.rs:554-564 | The frame-rate flags. |
| `ScrcpyArgs.PushRecordFlags` | src-tauri/src/commands.rs:574-587 | The recording flag, with the directory fallback. |
| `ScrcpyArgs.PushModeFlags` | src-tauri/src/commands.rs:530-552 | Camera flags, the virtual display, or OTG input for mirroring. |
| `ScrcpyArgs.PushCameraFlags` | src-tauri/src/commands.rs:530-539 | Camera source, selection, aspect ratio and high speed. |
| `ScrcpyArgs.SerialPrefixIffDevice` | src-tauri/src/commands.rs:486-489 | The vector begins with `-s <device>` if and only if the device is non-empty. |
| `ScrcpyArgs.CodecAlwaysPresent` | src-tauri/src/commands.rs:491-492 | The codec flag is always present, with h264 when no codec is set. |
| `ScrcpyArgs.PureOtgOnlyOtgFlags` | src-tauri/src/commands.rs:497-505 | In pure OTG, the vector is the selector, the codec and the OTG flags only. A network id gets `--no-video --no-audio --keyboard=uhid --mouse=uhid`, and any other id gets `--otg`. |
| `ScrcpyArgs.PureOtgIgnoresSessionSettings` | src-tauri/src/commands.rs:497-506 | In pure OTG, changing bitrate, fps, recording or any other session setting does not change the vector. |
| `ScrcpyArgs.CameraIgnoresControlSettings` | src-tauri/src/commands.rs:524-528 | In camera mode, stay-awake and screen-off never affect the vector. |
| `ScrcpyArgs.CameraSettingUnused` | src-tauri/src/commands.rs:524-552 | In camera mode, no setting that camera mode ignores affects the vector. |
| `ScrcpyArgs.CameraIdWinsOverFacing` | src-tauri/src/commands.rs:532-535 | With a non-empty camera id, `--camera-id=<id>` is emitted, and the facing setting does not affect the vector. |
| `ScrcpyArgs.CameraIdPresent` | src-tauri/src/commands.rs:532-533 | A non-empty camera id is emitted in camera mode. |
| `ScrcpyArgs.FpsPosition` | src-tauri/src/commands.rs:554-564 | Outside pure OTG, the frame-rate flags appear contiguously in the vector. |
| `ScrcpyArgs.FpsFlagByMode` | src-tauri/src/commands.rs:554-564 | Camera mode uses `--camera-fps <fps>`, and other modes use `--max-fps <fps>`. A high-speed camera without fps gets `--camera-fps 60`. |
| `ScrcpyArgs.DesktopDefaults` | src-tauri/src/commands.rs:541-546 | Desktop mode without sizes emits `--new-display=1920x1080/420`. |
| `ScrcpyArgs.ZeroMeansUnset` | src-tauri/src/commands.rs:517-572 | A rotation or size of "0" gives the same vector as no setting. |
| `ScrcpyArgs.FullCongruence` | src-tauri/src/commands.rs:482-590 | The vector depends only on the configuration's fields and on whether rotation and size are set to a value other than "0": two configurations that agree on these give the same vector. |
| `ScrcpyArgs.RecordFileHasNoColon` | src-tauri/src/commands.rs:583 | The recording file name holds no `:`, since the device's colons become dashes. |
| `ScrcpyArgs.MirrorDefaultsTest` | src-tauri/src/commands.rs:701-735 | The unit test: the mirror defaults contain `-s`, `device1` and `--video-codec=h264`. |
| `ScrcpyArgs.CameraModeTest` | src-tauri/src/commands.rs:737-772 | The unit test: camera mode contains the camera source, the facing flag, `--camera-fps` and `30`. |
| `ScrcpyArgs.BitrateAndFpsTest` | src-tauri/src/commands.rs:774-809 | The unit test: bitrate and fps give `--video-bit-rate`, `8M`, `--max-fps` and `60`. |
| `ControlPanel.HandleChange` | src/components/ControlPanel.tsx:68-70 | The field is set to the value, and every other field is unchanged. |
| `ControlPanel.ToggleOtg` | src/components/ControlPanel.tsx:220-225 | `otgEnabled` flips. Turning it off forces `otgPure` false, and turning it on leaves `otgPure` as it was. Every other field is unchanged. |
| `ControlPanel.ToggleOffEndsPureOtg` | src/components/ControlPanel.tsx:220-225 | Switching OTG off never leaves a pure OTG session. |
| `ControlPanel.ToggleTwiceRestoresSwitch` | src/components/ControlPanel.tsx:220-225 | Toggling twice restores an explicitly set switch. |
| `ControlPanel.PresetLabel` | src/components/ControlPanel.tsx:420-428 | "custom" exactly when the dimensions are those of no preset. |
| `ControlPanel.PresetLabelIff` | src/components/ControlPanel.tsx:420-428 | The label is a preset's name if and only if the dimensions are that preset's. |
| `ControlPanel.PresetNamed` | src/components/ControlPanel.tsx:429-434 | A recognised value names the preset it stands for. |
| `ControlPanel.PresetNamedInverse` | src/components/ControlPanel.tsx:429-434 | Every preset's name is recognised as that preset. |
| `ControlPanel.ApplyPreset` | src/components/ControlPanel.tsx:429-434 | A known preset sets exactly the two dimensions. An unknown value changes nothing. |
| `ControlPanel.Resize` | src/components/ControlPanel.tsx:430-433 | Sets both dimensions and nothing else. |
| `ControlPanel.PresetRoundTrip` | src/components/ControlPanel.tsx:420-434 | Choosing a preset and reading the label back gives that preset. |
| `ControlPanel.LabelThenApply` | src/components/ControlPanel.tsx:420-434 | Choosing the label that is shown changes nothing. |
| `ControlPanel.StartLabel` | src/components/ControlPanel.tsx:466-467 | "Initialize OTG" exactly in pure OTG. "Start Mission" exactly in other mirror sessions. "Engage Camera" exactly in camera mode. "Eject to Desktop" otherwise. |
| `Sidebar.StatusBadge` | src/components/Sidebar.tsx:83-104 | "Live" if and only if the device is in the running set, "Ready" otherwise. |
| `Sidebar.LinkBadge` | src/components/Sidebar.tsx:105-115 | "Wi-Fi" if and only if the id contains `.`, "USB" otherwise. |
| `Sidebar.SelectedLiveIffSessionRunning` | src/components/Sidebar.tsx:83 | The selected device shows "Live" exactly when the hook reports a running session. |
| `Sidebar.ConnectTarget` | src/components/Sidebar.tsx:257-258 | The target is the text before the first `:`, followed by `:5555`. It has exactly one `:` and ends in `:5555`. |
| `Sidebar.ConnectTargetOfAddress` | src/components/Sidebar.tsx:257-258 | `host:port` with a colon-free host gives `host:5555`. |
| `Sidebar.ConnectTargetIdempotent` | src/components/Sidebar.tsx:257-258 | Deriving the target of a target changes nothing. |
| `Sidebar.WirelessForm.constructor` | src/components/Sidebar.tsx:39-41 | All three boxes start empty, with no calls made. |
| `Sidebar.WirelessForm.EditConnectIp` | src/components/Sidebar.tsx:182 | Only the connect box changes. |
| `Sidebar.WirelessForm.EditPairIp` | src/components/Sidebar.tsx:240 | Only the pairing address changes. |
| `Sidebar.WirelessForm.EditPairCode` | src/components/Sidebar.tsx:248 | Only the pairing code changes. |
| `Sidebar.WirelessForm.HandleConnect` | src/components/Sidebar.tsx:44-47 | An empty address makes no call. Any other address makes exactly one `onConnect` call with it. |
| `Sidebar.WirelessForm.ConnectClicked` | src/components/Sidebar.tsx:186-188 | Connects to the box's address exactly when no refresh is in flight and the box is non-empty. |
| `Sidebar.WirelessForm.HistoryClicked` | src/components/Sidebar.tsx:213-216 | The connect box becomes the entry, which is connected to once. |
| `Sidebar.WirelessForm.PairClicked` | src/components/Sidebar.tsx:253-264 | There is no call when the address or code is empty or a refresh is in flight. On success, the call order is `onPair` then `onConnect` of the derived target, the code box is cleared and the connect box holds the target. |
| `App.SyncDevice` | src/App.tsx:75-79 | A non-empty active device becomes the configuration's device. An empty one leaves the configuration unchanged. No other field changes. |
| `App.SyncIdempotent` | src/App.tsx:75-79 | Syncing twice is the same as syncing once. |
| `App.ApkIgnoresCase` | src/App.tsx:108 | The package test is case-insensitive for every path: a path and its lower-cased form are classified alike. This is the general fact behind the extension rule. |
| `App.ApkExtensions` | src/App.tsx:108 | Worked examples only, for every file stem: `.apk` and `.APK` count as packages, and `.txt` does not. |
| `App.FileOperation` | src/App.tsx:105-114 | Nothing without an active device. Otherwise exactly one command: an install if and only if the path ends in `.apk` ignoring case, a push otherwise. |
| `App.FileOpsEachOnce` | src/App.tsx:64-67 | With an active device, every path is handled exactly once, in order. |
| `App.FileOpsNoDevice` | src/App.tsx:106 | Without an active device, no path produces a command. |
| `App.FileOpsAppend` | src/App.tsx:66 | Handling two batches of paths one after the other is the same as handling them together. |
| `App.PathSet` | src/App.tsx:154 | Sets the custom path, and no other field changes. |
| `App.PathReset` | src/App.tsx:165 | Removes the custom path, and no other field changes. |
| `App.ResetAfterSet` | src/App.tsx:154-165 | Resetting after choosing a path forgets the choice entirely. |
| `App.HandleStart` | src/App.tsx:81-84 | No command without an active device. Otherwise one session start with the current configuration. |
| `App.HandleStop` | src/App.tsx:86-89 | No command without an active device. Otherwise one stop for that device. |
| `App.HandleFileBrowse` | src/App.tsx:116-143 | The chosen files are dispatched as `FileOps` of the active device. |
| `App.ForEachFile` | src/App.tsx:66 | The `forEach` loop yields exactly `FileOps`. |
| `App.HandleDrop` | src/App.tsx:58-67 | Without a device, one warning is logged and there is no command. Otherwise each dropped path is processed once, in order, and the hook is unchanged. |
| `App.SyncActiveDevice` | src/App.tsx:75-79 | With an active device, the hook's configuration becomes `SyncDevice` of it. Without one, the hook is unchanged. |
| `App.HandleSetPath` | src/App.tsx:145-162 | A cancelled dialog changes nothing. A chosen folder is set, logged and checked, and no other field changes. |
| `App.HandleResetPath` | src/App.tsx:164-169 | The custom path is removed, one line is logged, and the default binary is checked. |

## Left out

- Process spawning and I/O in the backend are not modelled: `create_command`, `.output()` and `.spawn()`, `kill_adb`, `stop_scrcpy`, the `run_scrcpy` reader tasks and its exit monitor over the shared process map. Their results are inputs (`Output`, `ConnectOutcome`, `Result`).
- The 5 s timeout in `adb_connect` is an outcome value (`TimedOut`), not a clock.
- `download_scrcpy` (HTTP, archive extraction, progress events), `get_binary_path`, `copy_dir_all`, `get_videos_dir` and `save_report` are not modelled: they are network and filesystem work. The `downloading` and `download-progress` events only set presentation state.
- The record branch's timestamp (`chrono::Local::now()`) is the `stamp` parameter. `Path::join` is modelled with `/` as the separator.
- `localStorage` is the `storedConfig` and `storedHistory` fields. JSON parsing is an `Option` input: `None` means nothing saved or not parsable. The theme and auto-connect flags are not modelled, since they are presentation settings.
- The 500 ms and 1000 ms delays are single `Settle` steps. The 100 ms delay before `checkScrcpy` in `handleSetPath` and `handleResetPath` is folded into the returned `CheckScrcpy` command.
- `Hook.ScrcpyHook.ConnectDevice`: runs its awaits back to back. Other intents that could interleave at an `await` are not modelled, except for the refresh guard, which `BeginRefresh` and `EndRefresh` expose separately.
- `Hook.ScrcpyHook.RefreshDevices`: reads `isRefreshing` and `activeDevice` live. React's stale closures, state batching and listener registration are not modelled.
- `runScrcpy`, `stopScrcpy`, `pushFile`, `installApk`, `runTerminalCommand`, `checkScrcpy` and `downloadScrcpy` in the hook each forward one backend call. Only their dispatch from `App.tsx` (`App.Op`) is modelled. `runScrcpy`, `pushFile`, `installApk` and `runTerminalCommand` also log a line. `stopScrcpy` logs nothing. `downloadScrcpy` logs only when the call fails. `checkScrcpy` logs nothing and sets `scrcpyStatus` (useScrcpy.ts:275-287), which is presentation state. The model records its call as `CheckBinary` on mount and after a download.
- The backend's own `scrcpy-log` events, such as those `adb_connect` and `adb_pair` emit (commands.rs:183-233), reach the log only as external `OnLog` inputs. The model does not tie them to the command that emitted them.
- `Config.Merge`: saved values outside the declared field types are not modelled. Examples are a `null` written by JSON for a `NaN` number (`parseInt` of an emptied input in `ControlPanel.tsx`) and any other mistyped value. The spread `{ ...prev, ...parsed }` copies such keys. The model drops them and keeps the current value. The same holds for `Hook.Hydrated`, which merges through `Config.Merge`.
- Integer widths: bitrate, fps and the display sizes are `u32` in the backend and are `nat` here. No value of the interface comes near the bound.
- Whitespace is the six ASCII whitespace characters, and lower-casing covers ASCII letters only. Rust's `is_whitespace`, `split_whitespace` and `to_lowercase`, and JavaScript's `trim` and `\s`, also cover other Unicode characters.
- The aspect-ratio-lock recomputation of width and height in `ControlPanel.tsx` uses floating-point rounding and is not modelled.
- The regular-expression engine is not modelled. Both camera recognisers are written by hand for the grammar the two patterns use.
- `handleRefresh` and `handleKillAdb` in `App.tsx` are one backend call followed by a refresh. The refresh is modelled, and the `kill_adb` call is process I/O.
- `Header.tsx`, `Footer.tsx`, `ShortcutsPanel.tsx`, `Tooltip.tsx`, `ErrorBoundary.tsx`, `LogPanel.tsx` and `SessionBehavior.tsx` are presentation only.

## Findings

| source | as written | input that shows it | evidently intended | confidence | as-written member | corrected member |
|---|---|---|---|---|---|---|
| src/hooks/useScrcpy.ts:145 | `[...prev.slice(-100), x]` keeps 100 entries, then appends | a buffer of 100 entries and one more line gives 101 entries | the buffer keeps the most recent 100 entries | not executed; high | `LogBuffer.AsWrittenWindowOverflow` | `LogBuffer.AppendKeepsWindow` |
| src/hooks/useScrcpy.ts:362 | `[...prev.slice(-100), ...lines]` keeps 100 entries, then appends the whole batch (also lines 301 and 344) | a buffer of 100 entries and a 150-line `--help` listing gives 250 entries | the buffer keeps the most recent 100 entries | not executed; high | `LogBuffer.AsWrittenBatchOverflow` | `LogBuffer.AppendKeepsWindow` |
| src/hooks/useScrcpy.ts:394 | `[...prev, x]` appends with no bound (also line 271) | a buffer of 101 entries and the "No cameras parsed" line gives 102 | the same window as every other append | not executed; high | `LogBuffer.UnboundedAppendExceedsWindow` | `LogBuffer.Append` |
| src/hooks/useScrcpy.ts:238 | the line interpolates `res.error`, which is `true` in this branch | reply `{error: true, message: "ADB returned error"}` logs "Discovery error: true" | the line carries the backend's message | not executed; high | `Hook.DiscoveryErrorAsWrittenDropsMessage` | `Hook.DiscoveryError` |
| src-tauri/src/commands.rs:158 | services are de-duplicated by the string `name\|service\|address` | `("tv\|adb", "tls", A)` and `("tv", "adb\|tls", A)` share a key, so the second is dropped | each distinct (name, service, address) triple is kept once | not executed; low (`\|` in a service name is unusual) | `Commands.KeyCollisionDropsService` | `Commands.GetMdnsDevices` |
