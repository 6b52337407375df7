/**
 * The `useScrcpy` hook: the connection and session bookkeeping of the
 * front end. `HookState` is the hook's state as a value and the functions
 * below are its transitions; `ScrcpyHook` holds the same state in fields
 * and its methods perform the transitions step by step (one `setLogs` at a
 * time, one `forEach` iteration at a time), each proved to end in the state
 * the transition function gives.
 *
 * Every backend reply is an input: `Ok` carries what `invoke` resolved to,
 * `Err` the rejection the `catch` blocks see. The 500 ms and 1000 ms delays
 * are single `Settle` steps of the call trace.
 */
module Hook {
  import opened Wrappers
  import opened Text
  import opened Config
  import opened Seqs
  import LogBuffer
  import opened Commands
  import opened Cameras

  /** A call the hook makes to the backend, in the order it makes them. */
  datatype Call =
    | GetDevices
    | AdbConnect(ip: string)
    | Disconnect(ip: string)
    | AdbPair(ip: string, code: string)
    | ListOptions(device: string, arg: string)
    | VideosDir
    | CheckBinary  // `check_scrcpy`; App.CheckScrcpy is the same call issued from App.tsx with its path argument
    | Settle(ms: nat)

  /**
   * The hook's state. `prevDevices` is `prevDevicesRef.current`;
   * `storedConfig` and `storedHistory` are what the hook last wrote to
   * local storage (`None`: nothing written, or removed).
   */
  datatype HookState = HookState(
    devices: seq<string>,
    prevDevices: seq<string>,
    logs: seq<string>,
    history: seq<string>,
    running: seq<string>,
    activeDevice: string,
    isRefreshing: bool,
    cameras: seq<Camera>,
    config: Config,
    isInitialized: bool,
    storedConfig: Option<Config>,
    storedHistory: Option<seq<string>>)

  /**
   * What every transition keeps: the stored configuration follows the live
   * one once the hook is initialised, the running set has no duplicates and
   * no empty id, and the log buffer stays within its window.
   */
  predicate Inv(s: HookState) {
    (s.isInitialized ==> s.storedConfig == Some(s.config))
    && NoDup(s.running) && "" !in s.running
    && |s.logs| <= LogBuffer.Window
  }

  function Initial(): (s: HookState)
    ensures Inv(s) && !s.isInitialized && s.storedConfig == None
    ensures s.config == Defaults() && s.logs == [] && s.activeDevice == ""
  {
    HookState([], [], [], [], [], "", false, [], Defaults(), false, None, None)
  }

  function Log(s: HookState, entries: seq<string>): HookState {
    s.(logs := LogBuffer.Append(s.logs, entries))
  }

  /** Changing the active device clears the detected cameras (useScrcpy.ts:132-134). */
  function Select(s: HookState, d: string): HookState {
    s.(activeDevice := d, cameras := if d == s.activeDevice then s.cameras else [])
  }

  /** The persist effect: the configuration is written only once initialised. */
  function Persisted(s: HookState): HookState {
    if s.isInitialized then s.(storedConfig := Some(s.config)) else s
  }

  lemma LogInv(s: HookState, entries: seq<string>)
    ensures Inv(s) ==> Inv(Log(s, entries))
  {
    LogBuffer.AppendKeepsWindow(s.logs, entries);
  }

  /** Logging nothing leaves a state within the window as it was. */
  lemma LogNothing(s: HookState)
    requires Inv(s)
    ensures Log(s, []) == s
  {
    LogBuffer.AppendKeepsWindow(s.logs, []);
    assert s.logs + [] == s.logs;
  }

  // ---------------------------------------------------------------------
  // Configuration: hydrate, default recording path, edits

  /**
   * Mount: a saved configuration is merged over the current one, then the
   * hook is initialised, which writes the merged configuration back.
   */
  function Hydrated(s: HookState, saved: Option<map<Field, Value>>): (r: HookState)
    ensures Inv(s) ==> Inv(r)
    ensures r.isInitialized && r.storedConfig == Some(r.config)
    ensures saved.None? ==> r.config == s.config
    ensures saved.Some? ==> r.config == Merge(s.config, saved.value)
  {
    var c := if saved.Some? then Merge(s.config, saved.value) else s.config;
    Persisted(s.(config := c, isInitialized := true))
  }

  /** Mount checks the binary once when the saved blob holds a truthy `scrcpyPath`. */
  function MountChecks(saved: Option<map<Field, Value>>): seq<Call> {
    if saved.Some? && ScrcpyPath in saved.value && TruthyValue(saved.value[ScrcpyPath]) then [CheckBinary] else []
  }

  /** The Videos directory becomes the recording path only when none is set. */
  function VideosDirApplied(s: HookState, dir: Result<string, string>): (r: HookState)
    ensures Inv(s) ==> Inv(r)
    ensures dir.Ok? && !Truthy(s.config, RecordPath) ==> StrOf(r.config, RecordPath) == Some(dir.value)
    ensures dir.Err? || Truthy(s.config, RecordPath) ==> r == s
    ensures forall f :: f != RecordPath ==> (f in r.config <==> f in s.config) && (f in s.config ==> r.config[f] == s.config[f])
  {
    if dir.Ok? && !Truthy(s.config, RecordPath) then
      SetFrame(s.config, RecordPath, Str(dir.value));
      Persisted(s.(config := Set(s.config, RecordPath, Str(dir.value))))
    else s
  }

  /** `setConfig(c)`: stored only when the hook is initialised. */
  function ConfigSet(s: HookState, c: Config): (r: HookState)
    ensures Inv(s) ==> Inv(r)
    ensures r.config == c
    ensures s.isInitialized ==> r.storedConfig == Some(c)
    ensures !s.isInitialized ==> r.storedConfig == s.storedConfig
  {
    Persisted(s.(config := c))
  }

  // ---------------------------------------------------------------------
  // History

  const HistoryCap: nat := 10

  /**
   * `[ip, ...prev.filter(d => d !== ip)].slice(0, 10)`: the endpoint moves
   * to the front, the others keep their order, at most ten are kept.
   */
  function MruInsert(history: seq<string>, ip: string): (r: seq<string>)
    ensures 1 <= |r| <= HistoryCap && r[0] == ip
    ensures |r| == LogBuffer.Min(HistoryCap, 1 + |RemoveAll(history, ip)|)
    ensures ip !in r[1..]
    ensures r[1..] == RemoveAll(history, ip)[..|r| - 1]
    ensures forall x :: x in r ==> x == ip || x in history
  {
    var all := [ip] + RemoveAll(history, ip);
    var r := all[..LogBuffer.Min(HistoryCap, |all|)];
    assert r[1..] == RemoveAll(history, ip)[..|r| - 1];
    r
  }

  lemma NoDupPrefix(s: seq<string>, n: nat)
    requires NoDup(s) && n <= |s|
    ensures NoDup(s[..n])
  {
    forall i, j | 0 <= i < j < n ensures s[..n][i] != s[..n][j] {
      assert s[..n][i] == s[i] && s[..n][j] == s[j];
    }
  }

  /** A duplicate-free history stays duplicate-free. */
  lemma MruKeepsNoDup(history: seq<string>, ip: string)
    requires NoDup(history)
    ensures NoDup(MruInsert(history, ip))
  {
    var r := MruInsert(history, ip);
    RemoveAllNoDup(history, ip);
    NoDupPrefix(RemoveAll(history, ip), |r| - 1);
    assert r == [r[0]] + r[1..];
    forall i, j | 0 <= i < j < |r| ensures r[i] != r[j] {
      if i == 0 {
        assert r[j] == r[1..][j - 1];
      } else {
        assert r[i] == r[1..][i - 1] && r[j] == r[1..][j - 1];
      }
    }
  }

  /** Connecting to the most recent endpoint again leaves the history as it is. */
  lemma MruIdempotent(history: seq<string>, ip: string)
    ensures MruInsert(MruInsert(history, ip), ip) == MruInsert(history, ip)
  {
    var r := MruInsert(history, ip);
    assert r == [ip] + r[1..];
    RemoveAllAppend([ip], r[1..], ip);
    assert RemoveAll([ip], ip) == [];
    RemoveAllAbsent(r[1..], ip);
    assert RemoveAll(r, ip) == r[1..];
  }

  /** With fewer than ten entries, nothing is dropped. */
  lemma MruRoomKeepsAll(history: seq<string>, ip: string)
    requires |history| < HistoryCap
    ensures forall x :: x in history ==> x in MruInsert(history, ip)
  {
    var r := MruInsert(history, ip);
    var rest := RemoveAll(history, ip);
    assert |r| == |rest| + 1;
    assert r[1..] == rest;
    forall x | x in history ensures x in r {
      if x != ip {
        assert x in rest;
        var k :| 0 <= k < |rest| && rest[k] == x;
        assert r[k + 1] == x;
      }
    }
  }

  /** `addToHistory`: only `host:port` endpoints are recorded, and the result is written back. */
  function HistoryAdded(s: HookState, ip: string): (r: HookState)
    ensures Inv(s) ==> Inv(r)
    ensures ':' !in ip ==> r == s
    ensures ':' in ip ==> r.history == MruInsert(s.history, ip) && r.storedHistory == Some(r.history)
  {
    if ':' !in ip then s
    else
      var next := MruInsert(s.history, ip);
      s.(history := next, storedHistory := Some(next))
  }

  function HistoryCleared(s: HookState): (r: HookState)
    ensures Inv(s) ==> Inv(r)
    ensures r.history == [] && r.storedHistory == None
  {
    s.(history := [], storedHistory := None)
  }

  /** Mount: a parsable saved history replaces the (empty) current one. */
  function HistoryLoaded(s: HookState, saved: Option<seq<string>>): (r: HookState)
    ensures Inv(s) ==> Inv(r)
    ensures r.history == (if saved.Some? then saved.value else s.history)
  {
    if saved.Some? then s.(history := saved.value) else s
  }

  // ---------------------------------------------------------------------
  // Running sessions

  /** A `scrcpy-status` payload; `running` is `None` when it is not a boolean. */
  datatype StatusEvent = StatusEvent(device: string, running: Option<bool>)

  /** `[...new Set([...prev, device])]` or `prev.filter(d => d !== device)`. */
  function StatusUpdate(running: seq<string>, device: string, isRunning: bool): (r: seq<string>)
    ensures isRunning ==> device in r && NoDup(r)
    ensures !isRunning ==> device !in r
    ensures forall x :: x != device ==> (x in r <==> x in running)
  {
    if isRunning then Dedup(running + [device]) else RemoveAll(running, device)
  }

  /** Adding a running device keeps the existing order and appends it once. */
  lemma StatusAddKeepsOrder(running: seq<string>, device: string)
    requires NoDup(running)
    ensures StatusUpdate(running, device, true) == if device in running then running else running + [device]
  {
    DedupSnoc(running, device);
  }

  /** A repeated status event changes nothing. */
  lemma StatusIdempotent(running: seq<string>, device: string, isRunning: bool)
    ensures StatusUpdate(StatusUpdate(running, device, isRunning), device, isRunning)
      == StatusUpdate(running, device, isRunning)
  {
    var r := StatusUpdate(running, device, isRunning);
    if isRunning {
      DedupSnoc(r, device);
    } else {
      RemoveAllAbsent(r, device);
    }
  }

  /** Only a payload with a device and a boolean `running` changes the set. */
  function StatusChanged(s: HookState, e: StatusEvent): (r: HookState)
    ensures Inv(s) ==> Inv(r)
    ensures e.device == "" || e.running.None? ==> r == s
    ensures e.device != "" && e.running.Some? ==> r.running == StatusUpdate(s.running, e.device, e.running.value)
  {
    if e.device != "" && e.running.Some? then
      var next := StatusUpdate(s.running, e.device, e.running.value);
      assert NoDup(s.running) ==> NoDup(next) by {
        if !e.running.value && NoDup(s.running) { RemoveAllNoDup(s.running, e.device); }
      }
      s.(running := next)
    else s
  }

  /** `runningDevices.includes(activeDevice || '')`. */
  predicate SessionRunning(s: HookState) {
    s.activeDevice in s.running
  }

  /** Without an active device no session counts as running. */
  lemma NoSessionWithoutDevice(s: HookState)
    requires Inv(s) && s.activeDevice == ""
    ensures !SessionRunning(s)
  {
  }

  // ---------------------------------------------------------------------
  // Device refresh

  /** `a.filter(d => !b.includes(d))`, in the order of `a`. */
  function Without(a: seq<string>, b: seq<string>): (r: seq<string>)
    ensures forall x :: x in r <==> x in a && x !in b
    ensures |r| <= |a|
    decreases |a|
  {
    if a == [] then []
    else (if a[0] in b then [] else [a[0]]) + Without(a[1..], b)
  }

  /** A duplicate-free snapshot gives each added or removed id once. */
  lemma {:induction false} WithoutNoDup(a: seq<string>, b: seq<string>)
    requires NoDup(a)
    ensures NoDup(Without(a, b))
    decreases |a|
  {
    if a != [] {
      WithoutNoDup(a[1..], b);
      assert a[0] !in a[1..];
    }
  }

  const SystemTag := "[SYSTEM] "
  const TipTag := "[TIP] "
  const ErrorTag := "[ERROR] "

  const NewDevicePrefix := SystemTag + "New device discovered: "
  const GonePrefix := SystemTag + "Device disconnected: "
  const DiscoveryActivePrefix := SystemTag + "Discovery active: "
  const DiscoveryErrorPrefix := SystemTag + "Discovery error: "
  const RefreshErrorPrefix := SystemTag + "Error refreshing devices: "

  function DiscoveryActive(n: nat): string {
    DiscoveryActivePrefix + (NatToString(n) + " device(s) found.")
  }

  /** One log line per id, in order. */
  function Tagged(prefix: string, ids: seq<string>): (r: seq<string>)
    ensures |r| == |ids|
    ensures forall i :: 0 <= i < |ids| ==> r[i] == prefix + ids[i]
  {
    seq(|ids|, i requires 0 <= i < |ids| => prefix + ids[i])
  }

  lemma TaggedSnoc(prefix: string, ids: seq<string>, i: nat)
    requires i < |ids|
    ensures Tagged(prefix, ids[..i + 1]) == Tagged(prefix, ids[..i]) + [prefix + ids[i]]
  {
  }

  /** The tagged lines of the first `n` ids, built one line at a time as `forEach` does. */
  function TaggedUpTo(prefix: string, ids: seq<string>, n: nat): seq<string>
    requires n <= |ids|
  {
    if n == 0 then [] else TaggedUpTo(prefix, ids, n - 1) + [prefix + ids[n - 1]]
  }

  lemma {:induction false} TaggedUpToAll(prefix: string, ids: seq<string>, n: nat)
    requires n <= |ids|
    ensures TaggedUpTo(prefix, ids, n) == Tagged(prefix, ids[..n])
  {
    if n > 0 {
      TaggedUpToAll(prefix, ids, n - 1);
      TaggedSnoc(prefix, ids, n - 1);
    }
  }

  /** Log lines with one prefix name exactly the ids tagged with it. */
  lemma TaggedSame(prefix: string, ids: seq<string>, d: string)
    ensures prefix + d in Tagged(prefix, ids) <==> d in ids
  {
    var t := Tagged(prefix, ids);
    if prefix + d in t {
      var i :| 0 <= i < |t| && t[i] == prefix + d;
      assert (prefix + ids[i])[|prefix|..] == ids[i];
      assert (prefix + d)[|prefix|..] == d;
    }
    if d in ids {
      var i :| 0 <= i < |ids| && ids[i] == d;
      assert t[i] == prefix + d;
    }
  }

  lemma DifferAt(p: string, q: string, a: string, b: string, k: nat)
    requires k < |p| && k < |q| && p[k] != q[k]
    ensures p + a != q + b
  {
    assert (p + a)[k] == p[k] && (q + b)[k] == q[k];
  }

  /** Log lines with another prefix never name an id tagged with this one. */
  lemma TaggedOther(p: string, q: string, ids: seq<string>, d: string, k: nat)
    requires k < |p| && k < |q| && p[k] != q[k]
    ensures p + d !in Tagged(q, ids)
  {
    forall i | 0 <= i < |ids| ensures Tagged(q, ids)[i] != p + d {
      DifferAt(q, p, ids[i], d, k);
    }
  }

  /** `get_devices` resolved with a device list. */
  predicate Listed(reply: Result<DeviceList, string>) {
    reply.Ok? && reply.value.DeviceIds?
  }

  /**
   * The discovery-error line as the source writes it: `${res.error}`
   * prints the boolean flag, which is `true` whenever this branch runs.
   */
  function DiscoveryErrorAsWritten(message: string): string {
    DiscoveryErrorPrefix + "true"
  }

  /** Every backend error gives the same line: the reason is lost. */
  lemma DiscoveryErrorAsWrittenDropsMessage(m1: string, m2: string)
    ensures DiscoveryErrorAsWritten(m1) == DiscoveryErrorAsWritten(m2)
    ensures m1 != "true" ==> DiscoveryErrorAsWritten(m1) != DiscoveryError(m1)
  {
    if m1 != "true" {
      assert DiscoveryError(m1)[|DiscoveryErrorPrefix|..] == m1;
      assert DiscoveryErrorAsWritten(m1)[|DiscoveryErrorPrefix|..] == "true";
    }
  }

  /** The corrected line carries the backend's message. */
  function DiscoveryError(message: string): (r: string)
    ensures StartsWith(r, DiscoveryErrorPrefix) && r[|DiscoveryErrorPrefix|..] == message
  {
    DiscoveryErrorPrefix + message
  }

  /** The log lines one refresh appends, given the previous snapshot. */
  function RefreshLogs(prev: seq<string>, reply: Result<DeviceList, string>, silent: bool): seq<string> {
    match reply
    case Err(e) => [RefreshErrorPrefix + e]
    case Ok(ListError(m)) => [DiscoveryError(m)]
    case Ok(DeviceIds(ids)) =>
      var added := Without(ids, prev);
      var removed := Without(prev, ids);
      Tagged(NewDevicePrefix, added) + Tagged(GonePrefix, removed)
      + (if !silent && added == [] && removed == [] then [DiscoveryActive(|ids|)] else [])
  }

  /** A failed refresh appends exactly one line. */
  lemma RefreshFailureLogsOnce(prev: seq<string>, reply: Result<DeviceList, string>, silent: bool)
    requires !Listed(reply)
    ensures |RefreshLogs(prev, reply, silent)| == 1
  {
  }

  /** An id is announced as new exactly when it is in the new snapshot and not the old. */
  lemma NewDeviceLogged(prev: seq<string>, ids: seq<string>, silent: bool, d: string)
    ensures NewDevicePrefix + d in RefreshLogs(prev, Ok(DeviceIds(ids)), silent) <==> d in ids && d !in prev
  {
    var added := Without(ids, prev);
    var removed := Without(prev, ids);
    var tail := if !silent && added == [] && removed == [] then [DiscoveryActive(|ids|)] else [];
    assert RefreshLogs(prev, Ok(DeviceIds(ids)), silent) == Tagged(NewDevicePrefix, added) + Tagged(GonePrefix, removed) + tail;
    TaggedSame(NewDevicePrefix, added, d);
    TaggedOther(NewDevicePrefix, GonePrefix, removed, d, 9);
    assert NewDevicePrefix + d !in tail by {
      if tail != [] { DifferAt(NewDevicePrefix, DiscoveryActivePrefix, d, NatToString(|ids|) + " device(s) found.", 9); }
    }
  }

  /** An id is announced as gone exactly when it was in the old snapshot and not the new. */
  lemma GoneDeviceLogged(prev: seq<string>, ids: seq<string>, silent: bool, d: string)
    ensures GonePrefix + d in RefreshLogs(prev, Ok(DeviceIds(ids)), silent) <==> d in prev && d !in ids
  {
    var added := Without(ids, prev);
    var removed := Without(prev, ids);
    var tail := if !silent && added == [] && removed == [] then [DiscoveryActive(|ids|)] else [];
    assert RefreshLogs(prev, Ok(DeviceIds(ids)), silent) == Tagged(NewDevicePrefix, added) + Tagged(GonePrefix, removed) + tail;
    TaggedSame(GonePrefix, removed, d);
    TaggedOther(GonePrefix, NewDevicePrefix, added, d, 9);
    assert GonePrefix + d !in tail by {
      if tail != [] { DifferAt(GonePrefix, DiscoveryActivePrefix, d, NatToString(|ids|) + " device(s) found.", 10); }
    }
  }

  /** The summary line appears exactly when not silent and nothing changed. */
  lemma DiscoveryActiveLogged(prev: seq<string>, ids: seq<string>, silent: bool)
    ensures DiscoveryActive(|ids|) in RefreshLogs(prev, Ok(DeviceIds(ids)), silent)
      <==> !silent && Without(ids, prev) == [] && Without(prev, ids) == []
  {
    var added := Without(ids, prev);
    var removed := Without(prev, ids);
    var n := NatToString(|ids|) + " device(s) found.";
    TaggedOther(DiscoveryActivePrefix, NewDevicePrefix, added, n, 9);
    TaggedOther(DiscoveryActivePrefix, GonePrefix, removed, n, 10);
  }

  /** A duplicate-free snapshot logs each added id once. */
  lemma NewDeviceLoggedOnce(prev: seq<string>, ids: seq<string>)
    requires NoDup(ids)
    ensures NoDup(Tagged(NewDevicePrefix, Without(ids, prev)))
  {
    var added := Without(ids, prev);
    WithoutNoDup(ids, prev);
    var t := Tagged(NewDevicePrefix, added);
    forall i, j | 0 <= i < j < |t| ensures t[i] != t[j] {
      assert t[i][|NewDevicePrefix|..] == added[i];
      assert t[j][|NewDevicePrefix|..] == added[j];
    }
  }

  /**
   * The end of a refresh that has started: a listing becomes the snapshot,
   * the diff is logged and the first device is selected when none is
   * active; an error logs one line and keeps the snapshot.
   */
  function RefreshEnded(s: HookState, reply: Result<DeviceList, string>, silent: bool): (r: HookState)
    ensures Inv(s) ==> Inv(r)
    ensures !r.isRefreshing
    ensures r.logs == LogBuffer.Append(s.logs, RefreshLogs(s.prevDevices, reply, silent))
    ensures Listed(reply) ==> r.devices == reply.value.ids && r.prevDevices == reply.value.ids
    ensures !Listed(reply) ==> r == Log(s, RefreshLogs(s.prevDevices, reply, silent)).(isRefreshing := false)
    ensures r.activeDevice == if Listed(reply) && reply.value.ids != [] && s.activeDevice == ""
      then reply.value.ids[0] else s.activeDevice
    ensures r.history == s.history && r.running == s.running && r.config == s.config
    ensures r.cameras == if r.activeDevice != s.activeDevice then [] else s.cameras
    ensures r.isInitialized == s.isInitialized && r.storedConfig == s.storedConfig && r.storedHistory == s.storedHistory
  {
    LogInv(s, RefreshLogs(s.prevDevices, reply, silent));
    var s1 := if Listed(reply) then Listing(s, reply.value.ids, silent)
      else Log(s, RefreshLogs(s.prevDevices, reply, silent));
    s1.(isRefreshing := false)
  }

  /** A listing: the diff is logged, it becomes the snapshot, the first device is auto-selected. */
  function Listing(s: HookState, ids: seq<string>, silent: bool): HookState {
    var s1 := Log(s, RefreshLogs(s.prevDevices, Ok(DeviceIds(ids)), silent)).(devices := ids, prevDevices := ids);
    if ids != [] && s.activeDevice == "" then Select(s1, ids[0]) else s1
  }

  /** `refreshDevices`: nothing at all happens while a refresh is in flight. */
  function Refreshed(s: HookState, reply: Result<DeviceList, string>, silent: bool): (r: HookState)
    ensures Inv(s) ==> Inv(r)
    ensures s.isRefreshing ==> r == s
    ensures !s.isRefreshing ==> r == RefreshEnded(s, reply, silent)
  {
    if s.isRefreshing then s else RefreshEnded(s, reply, silent)
  }

  // ---------------------------------------------------------------------
  // Connect

  const RetryLog := SystemTag + "Connection failed, retrying with cleanup..."
  const StaleTip := TipTag + "Port might be stale. Try \"Kill ADB\" to refresh discovery."

  function Connected(ip: string): string { SystemTag + ("CONNECTED TO " + ip + " SUCCESSFULLY.") }
  function ConnectFailed(message: string): string { SystemTag + ("Connection failed: " + message) }
  function ConnectError(e: string): string { ErrorTag + ("Connection error: " + e) }

  /** The first reply calls for a cleanup and a second attempt. */
  predicate Retries(first: Result<Reply, string>) {
    first.Ok? && !first.value.success && IsTransient(first.value.message)
  }

  /**
   * The reply `connectDevice` acts on: the first one, or after a cleanup
   * the second one, or the rejection that ended it early.
   */
  function ConnectFinal(first: Result<Reply, string>, cleanup: Option<string>, second: Result<Reply, string>)
    : (r: Result<Reply, string>)
    ensures !Retries(first) ==> r == first
    ensures Retries(first) && cleanup.Some? ==> r == Err(cleanup.value)
    ensures Retries(first) && cleanup.None? ==> r == second
  {
    FinalOf(Retries(first), first, cleanup, second)
  }

  function FinalOf(retry: bool, first: Result<Reply, string>, cleanup: Option<string>, second: Result<Reply, string>)
    : Result<Reply, string>
  {
    if !retry then first
    else if cleanup.Some? then Err(cleanup.value)
    else second
  }

  predicate Succeeds(final: Result<Reply, string>) {
    final.Ok? && final.value.success
  }

  /** A rejection becomes `{ success: false, message: e }`. */
  function ReplyOf(final: Result<Reply, string>): (r: Reply)
    ensures r.success <==> Succeeds(final)
  {
    match final
    case Ok(reply) => reply
    case Err(e) => Reply(false, e)
  }

  function FailureLogs(message: string): seq<string> {
    [ConnectFailed(message)] + (if IsTransient(message) then [StaleTip] else [])
  }

  function RetryLogs(retry: bool): seq<string> {
    if retry then [RetryLog] else []
  }

  function OutcomeLogs(ip: string, final: Result<Reply, string>): seq<string> {
    match final
    case Err(e) => [ConnectError(e)]
    case Ok(r) => if r.success then [Connected(ip)] else FailureLogs(r.message)
  }

  /** The lines `connectDevice` itself appends, before its closing refresh. */
  function ConnectLogs(ip: string, first: Result<Reply, string>, cleanup: Option<string>, second: Result<Reply, string>)
    : seq<string>
  {
    RetryLogs(Retries(first)) + OutcomeLogs(ip, ConnectFinal(first, cleanup, second))
  }

  /** The attempts: one `adb_connect`, then on a transient failure the cleanup and a second one. */
  function AttemptCalls(ip: string, retry: bool, cleanup: Option<string>): seq<Call> {
    [AdbConnect(ip)] + (if retry then RetryCalls(ip, cleanup) else [])
  }

  /** The cleanup disconnect and, when it went through, the pause and the second connect. */
  function RetryCalls(ip: string, cleanup: Option<string>): seq<Call> {
    [Disconnect(ip)] + (if cleanup.None? then [Settle(500), AdbConnect(ip)] else [])
  }

  lemma AttemptTrace(t: seq<Call>, ip: string, retry: bool, cleanup: Option<string>)
    ensures t + [AdbConnect(ip)] + (if retry then RetryCalls(ip, cleanup) else []) == t + AttemptCalls(ip, retry, cleanup)
  {
  }

  function FinishCalls(final: Result<Reply, string>): seq<Call> {
    if Succeeds(final) then [Settle(1000), GetDevices] else []
  }

  /** The backend calls of `connectDevice`, its closing refresh included. */
  function ConnectCalls(ip: string, first: Result<Reply, string>, cleanup: Option<string>, second: Result<Reply, string>)
    : seq<Call>
  {
    AttemptCalls(ip, Retries(first), cleanup) + FinishCalls(ConnectFinal(first, cleanup, second))
  }

  function Attempts(calls: seq<Call>): nat
    decreases |calls|
  {
    if calls == [] then 0
    else Attempts(calls[..|calls| - 1]) + (if calls[|calls| - 1].AdbConnect? then 1 else 0)
  }

  lemma {:induction false} AttemptsAppend(a: seq<Call>, b: seq<Call>)
    ensures Attempts(a + b) == Attempts(a) + Attempts(b)
    decreases |b|
  {
    if b == [] {
      assert a + b == a;
    } else {
      assert (a + b)[..|a + b| - 1] == a + b[..|b| - 1];
      assert (a + b)[|a + b| - 1] == b[|b| - 1];
      AttemptsAppend(a, b[..|b| - 1]);
    }
  }

  /** At most two connection attempts, and two exactly when the cleanup ran and succeeded. */
  lemma ConnectAttemptsAtMostTwo(ip: string, first: Result<Reply, string>, cleanup: Option<string>, second: Result<Reply, string>)
    ensures Attempts(ConnectCalls(ip, first, cleanup, second)) <= 2
    ensures Attempts(ConnectCalls(ip, first, cleanup, second)) == 2 <==> Retries(first) && cleanup.None?
  {
    var mid := if Retries(first) then [Disconnect(ip)] + (if cleanup.None? then [Settle(500), AdbConnect(ip)] else []) else [];
    var tail := FinishCalls(ConnectFinal(first, cleanup, second));
    assert ConnectCalls(ip, first, cleanup, second) == [AdbConnect(ip)] + mid + tail;
    AttemptsAppend([AdbConnect(ip)] + mid, tail);
    AttemptsAppend([AdbConnect(ip)], mid);
    assert Attempts([AdbConnect(ip)]) == 1 by { assert [AdbConnect(ip)][..0] == []; }
    assert Attempts(tail) == 0 by {
      if tail != [] {
        assert tail[..1] == [Settle(1000)] && tail[..1][..0] == [];
      }
    }
    if Retries(first) {
      var m2 := if cleanup.None? then [Settle(500), AdbConnect(ip)] else [];
      AttemptsAppend([Disconnect(ip)], m2);
      assert Attempts([Disconnect(ip)]) == 0 by { assert [Disconnect(ip)][..0] == []; }
      if cleanup.None? {
        assert m2[..1] == [Settle(500)] && m2[..1][..0] == [];
      }
    }
  }

  /** The cleanup disconnect happens if and only if the first reply is a transient failure. */
  lemma ConnectCleanupIff(ip: string, first: Result<Reply, string>, cleanup: Option<string>, second: Result<Reply, string>)
    ensures Disconnect(ip) in ConnectCalls(ip, first, cleanup, second) <==> Retries(first)
  {
    var calls := ConnectCalls(ip, first, cleanup, second);
    if Retries(first) {
      assert calls[1] == Disconnect(ip);
    }
  }

  /** The stale-port tip appears exactly when the final reply is a transient failure. */
  lemma StaleTipIff(ip: string, first: Result<Reply, string>, cleanup: Option<string>, second: Result<Reply, string>)
    ensures StaleTip in ConnectLogs(ip, first, cleanup, second) <==>
      var final := ConnectFinal(first, cleanup, second);
      final.Ok? && !final.value.success && IsTransient(final.value.message)
  {
    var final := ConnectFinal(first, cleanup, second);
    assert StaleTip != RetryLog by { assert StaleTip[1] != RetryLog[1]; }
    assert StaleTip !in RetryLogs(Retries(first));
    match final
    case Err(e) =>
      assert StaleTip != ConnectError(e) by { assert StaleTip[1] != ConnectError(e)[1]; }
    case Ok(r) =>
      if r.success {
        assert StaleTip != Connected(ip) by { assert StaleTip[1] != Connected(ip)[1]; }
      } else {
        assert StaleTip != ConnectFailed(r.message) by { assert StaleTip[1] != ConnectFailed(r.message)[1]; }
      }
  }

  /**
   * The end of `connectDevice`, once `final` is known: its lines are logged;
   * on success the endpoint enters the history and a silent refresh runs
   * (it can, since the flag was just cleared); the flag is down at the end.
   */
  function ConnectFinished(s: HookState, ip: string, final: Result<Reply, string>, refresh: Result<DeviceList, string>)
    : (r: HookState)
    ensures Inv(s) ==> Inv(r)
    ensures !r.isRefreshing
  {
    LogInv(s, OutcomeLogs(ip, final));
    if Succeeds(final) then ConnectSucceeded(s, ip, refresh)
    else Log(s, OutcomeLogs(ip, final)).(isRefreshing := false)
  }

  /** Success: logged, recorded in the history, the flag lowered, then a silent refresh. */
  function ConnectSucceeded(s: HookState, ip: string, refresh: Result<DeviceList, string>): (r: HookState)
    ensures Inv(s) ==> Inv(r)
    ensures !r.isRefreshing && r.config == s.config && r.running == s.running
    ensures r.history == HistoryAdded(s, ip).history
    ensures r.logs == LogBuffer.Append(LogBuffer.Append(s.logs, [Connected(ip)]), RefreshLogs(s.prevDevices, refresh, true))
    ensures Listed(refresh) ==> r.devices == refresh.value.ids && r.prevDevices == refresh.value.ids
    ensures !Listed(refresh) ==> r.devices == s.devices && r.prevDevices == s.prevDevices
    ensures r.activeDevice == if Listed(refresh) && refresh.value.ids != [] && s.activeDevice == ""
      then refresh.value.ids[0] else s.activeDevice
  {
    LogInv(s, [Connected(ip)]);
    RefreshEnded(HistoryAdded(Log(s, [Connected(ip)]), ip).(isRefreshing := false), refresh, true)
  }

  /** `connectDevice`: the flag is raised, the attempts run, and the outcome is applied. */
  function ConnectState(s: HookState, ip: string, first: Result<Reply, string>, cleanup: Option<string>,
                        second: Result<Reply, string>, refresh: Result<DeviceList, string>): (r: HookState)
    ensures Inv(s) ==> Inv(r)
    ensures !r.isRefreshing
  {
    var retry := RetryLogs(Retries(first));
    LogInv(s.(isRefreshing := true), retry);
    ConnectFinished(Log(s.(isRefreshing := true), retry), ip, ConnectFinal(first, cleanup, second), refresh)
  }

  /**
   * A connection that ends in success logs its lines, records the endpoint
   * and then the silent refresh's lines; any other outcome only logs and
   * lowers the flag.
   */
  lemma ConnectOutcome(s: HookState, ip: string, first: Result<Reply, string>, cleanup: Option<string>,
                       second: Result<Reply, string>, refresh: Result<DeviceList, string>)
    ensures var r := ConnectState(s, ip, first, cleanup, second, refresh);
      Succeeds(ConnectFinal(first, cleanup, second)) ==>
        r == RefreshEnded(HistoryAdded(Log(s, ConnectLogs(ip, first, cleanup, second)), ip).(isRefreshing := false), refresh, true)
    ensures var r := ConnectState(s, ip, first, cleanup, second, refresh);
      !Succeeds(ConnectFinal(first, cleanup, second)) ==>
        r == Log(s, ConnectLogs(ip, first, cleanup, second)).(isRefreshing := false)
  {
    var final := ConnectFinal(first, cleanup, second);
    if Succeeds(final) {
      ConnectSucceedsAs(s, ip, first, cleanup, second, refresh);
    } else {
      LogBuffer.AppendTwice(s.logs, RetryLogs(Retries(first)), OutcomeLogs(ip, final));
    }
  }

  /**
   * What a successful connection leaves behind: the endpoint heads the history, the config
   * and running set are untouched, and the device list, snapshot and selection follow the
   * silent refresh's listing.
   */
  lemma ConnectSuccessEffects(s: HookState, ip: string, first: Result<Reply, string>, cleanup: Option<string>,
                              second: Result<Reply, string>, refresh: Result<DeviceList, string>)
    requires Succeeds(ConnectFinal(first, cleanup, second))
    ensures var r := ConnectState(s, ip, first, cleanup, second, refresh);
      r.history == HistoryAdded(s, ip).history && r.config == s.config && r.running == s.running
    ensures var r := ConnectState(s, ip, first, cleanup, second, refresh);
      r.logs == LogBuffer.Append(LogBuffer.Append(s.logs, ConnectLogs(ip, first, cleanup, second)), RefreshLogs(s.prevDevices, refresh, true))
    ensures var r := ConnectState(s, ip, first, cleanup, second, refresh);
      (Listed(refresh) ==> r.devices == refresh.value.ids && r.prevDevices == refresh.value.ids) &&
      (!Listed(refresh) ==> r.devices == s.devices && r.prevDevices == s.prevDevices)
    ensures var r := ConnectState(s, ip, first, cleanup, second, refresh);
      r.activeDevice == if Listed(refresh) && refresh.value.ids != [] && s.activeDevice == ""
        then refresh.value.ids[0] else s.activeDevice
  {
    ConnectSucceedsAs(s, ip, first, cleanup, second, refresh);
    var logged := HistoryAdded(Log(s, ConnectLogs(ip, first, cleanup, second)), ip).(isRefreshing := false);
    assert logged.history == HistoryAdded(s, ip).history;
  }

  /** The successful connection is one log write of all its lines, then the history update and the silent refresh. */
  lemma ConnectSucceedsAs(s: HookState, ip: string, first: Result<Reply, string>, cleanup: Option<string>,
                          second: Result<Reply, string>, refresh: Result<DeviceList, string>)
    requires Succeeds(ConnectFinal(first, cleanup, second))
    ensures ConnectState(s, ip, first, cleanup, second, refresh)
      == RefreshEnded(HistoryAdded(Log(s, ConnectLogs(ip, first, cleanup, second)), ip).(isRefreshing := false), refresh, true)
  {
    var final := ConnectFinal(first, cleanup, second);
    var retry := RetryLogs(Retries(first));
    LogBuffer.AppendTwice(s.logs, retry, OutcomeLogs(ip, final));
    var logged := Log(Log(s.(isRefreshing := true), retry), [Connected(ip)]);
    assert OutcomeLogs(ip, final) == [Connected(ip)];
    assert logged.(isRefreshing := false) == Log(s, ConnectLogs(ip, first, cleanup, second)).(isRefreshing := false);
    assert HistoryAdded(logged, ip).(isRefreshing := false)
      == HistoryAdded(Log(s, ConnectLogs(ip, first, cleanup, second)), ip).(isRefreshing := false);
  }

  // ---------------------------------------------------------------------
  // Pair

  const ProtocolTip := TipTag + "Protocol fault usually means the ADB server is stuck. Try \"Kill ADB\" in the sidebar."

  function Paired(ip: string): string { SystemTag + ("Successfully paired with " + ip) }
  function PairFailed(message: string): string { SystemTag + ("Pairing failed: " + message) }
  function PairError(e: string): string { ErrorTag + ("Pairing error: " + e) }

  function PairFailureLogs(message: string): seq<string> {
    [PairFailed(message)] + (if Contains(message, "protocol fault") then [ProtocolTip] else [])
  }

  /** The Kill ADB tip follows a pairing failure exactly when it mentions a protocol fault. */
  lemma ProtocolTipIff(message: string)
    ensures ProtocolTip in PairFailureLogs(message) <==> Contains(message, "protocol fault")
    ensures PairFailureLogs(message)[0] == PairFailed(message)
  {
    assert ProtocolTip != PairFailed(message) by { assert ProtocolTip[1] != PairFailed(message)[1]; }
  }

  /** `pairDevice`: a success logs and refreshes silently (unless one is in flight). */
  function PairState(s: HookState, ip: string, reply: Result<Reply, string>, refresh: Result<DeviceList, string>)
    : (r: HookState)
    ensures Inv(s) ==> Inv(r)
    ensures reply.Err? ==> r == Log(s, [PairError(reply.error)])
    ensures reply.Ok? && !reply.value.success ==> r == Log(s, PairFailureLogs(reply.value.message))
    ensures reply.Ok? && reply.value.success ==> r == Refreshed(Log(s, [Paired(ip)]), refresh, true)
  {
    match reply
    case Err(e) => LogInv(s, [PairError(e)]); Log(s, [PairError(e)])
    case Ok(res) =>
      if res.success then LogInv(s, [Paired(ip)]); Refreshed(Log(s, [Paired(ip)]), refresh, true)
      else LogInv(s, PairFailureLogs(res.message)); Log(s, PairFailureLogs(res.message))
  }

  function PairCalls(s: HookState, ip: string, code: string, reply: Result<Reply, string>): seq<Call> {
    [AdbPair(ip, code)] + (if Succeeds(reply) && !s.isRefreshing then [GetDevices] else [])
  }

  // ---------------------------------------------------------------------
  // scrcpy option listings

  const CameraListArg := "--list-cameras"
  const NoCamerasLog := SystemTag + "No cameras parsed from output. Please check the console above."

  function RunningOptions(arg: string): string { "Running scrcpy " + arg + "..." }
  function OptionsError(e: string): string { "Error: " + e }

  /**
   * The lines a non-empty listing logs: the output's lines, then the
   * diagnostic line for a camera listing in which no camera is recognised.
   */
  function ListingLogs(arg: string, out: string): (r: seq<string>)
    ensures out == "" ==> r == []
    ensures out != "" ==> |SplitOn(out, '\n')| <= |r| && r[..|SplitOn(out, '\n')|] == SplitOn(out, '\n')
    ensures out != "" ==>
      (|r| > |SplitOn(out, '\n')| <==> arg == CameraListArg && CamerasOf(SplitOn(out, '\n')) == [])
    ensures |r| > |SplitOn(out, '\n')| ==> r == SplitOn(out, '\n') + [NoCamerasLog]
  {
    if out == "" then []
    else
      var lines := SplitOn(out, '\n');
      lines + (if arg == CameraListArg && CamerasOf(lines) == [] then [NoCamerasLog] else [])
  }

  /**
   * `listScrcpyOptions`: a "running" line, then either the error line or
   * the listing's lines; for a camera listing the parsed cameras replace
   * the detected ones only when there are some. `Ok("")` stands for a
   * reply without output.
   */
  function OptionsListed(s: HookState, arg: string, reply: Result<string, string>): (r: HookState)
    ensures Inv(s) ==> Inv(r)
    ensures r == s.(logs := r.logs, cameras := r.cameras)
    ensures reply.Err? ==> r == Log(s, [RunningOptions(arg), OptionsError(reply.error)])
    ensures reply.Ok? ==> r.logs == LogBuffer.Append(s.logs, [RunningOptions(arg)] + ListingLogs(arg, reply.value))
    ensures r.cameras == if arg == CameraListArg && reply.Ok? && reply.value != "" && CamerasOf(SplitOn(reply.value, '\n')) != []
      then CamerasOf(SplitOn(reply.value, '\n')) else s.cameras
  {
    var s1 := Log(s, [RunningOptions(arg)]);
    if reply.Err? then
      LoggedTwice(s, [RunningOptions(arg)], [OptionsError(reply.error)]);
      assert [RunningOptions(arg)] + [OptionsError(reply.error)] == [RunningOptions(arg), OptionsError(reply.error)];
      Log(s1, [OptionsError(reply.error)])
    else
      RunningThenShown(s, arg, reply.value);
      OptionsShown(s1, arg, reply.value)
  }

  /** Two log writes in a row are one write of both batches. */
  lemma LoggedTwice(s: HookState, xs: seq<string>, ys: seq<string>)
    ensures Inv(s) ==> Inv(Log(Log(s, xs), ys))
    ensures Log(Log(s, xs), ys) == Log(s, xs + ys)
  {
    LogInv(s, xs);
    LogInv(Log(s, xs), ys);
    LogBuffer.AppendTwice(s.logs, xs, ys);
  }

  /** The "running" line, then the listing's lines, land in the log in that order. */
  lemma RunningThenShown(s: HookState, arg: string, out: string)
    ensures var r := OptionsShown(Log(s, [RunningOptions(arg)]), arg, out);
      (Inv(s) ==> Inv(r)) && r.logs == LogBuffer.Append(s.logs, [RunningOptions(arg)] + ListingLogs(arg, out))
  {
    LogInv(s, [RunningOptions(arg)]);
    var s1 := Log(s, [RunningOptions(arg)]);
    if out == "" {
      assert [RunningOptions(arg)] + ListingLogs(arg, out) == [RunningOptions(arg)];
    } else {
      LogBuffer.AppendTwice(s.logs, [RunningOptions(arg)], ListingLogs(arg, out));
    }
  }

  /**
   * The listing's lines go to the log; a camera listing also replaces the
   * cameras when it names any, and otherwise logs the diagnostic line.
   */
  function OptionsShown(s: HookState, arg: string, out: string): (r: HookState)
    ensures Inv(s) ==> Inv(r)
    ensures out == "" ==> r == s
    ensures r == s.(logs := r.logs, cameras := r.cameras)
    ensures out != "" ==> r.logs == LogBuffer.Append(s.logs, ListingLogs(arg, out))
    ensures r.cameras == if arg == CameraListArg && out != "" && CamerasOf(SplitOn(out, '\n')) != []
      then CamerasOf(SplitOn(out, '\n')) else s.cameras
  {
    if out == "" then s else LinesShown(s, arg, SplitOn(out, '\n'))
  }

  /** A non-empty listing, given as its lines. */
  function LinesShown(s: HookState, arg: string, lines: seq<string>): (r: HookState)
    ensures Inv(s) ==> Inv(r)
    ensures r == s.(logs := r.logs, cameras := r.cameras)
    ensures r.logs == LogBuffer.Append(s.logs, lines +
      (if arg == CameraListArg && CamerasOf(lines) == [] then [NoCamerasLog] else []))
    ensures r.cameras == if arg == CameraListArg && CamerasOf(lines) != [] then CamerasOf(lines) else s.cameras
  {
    LogInv(s, lines);
    var s2 := Log(s, lines);
    if arg == CameraListArg && CamerasOf(lines) == [] then
      NoCamerasLogged(s, lines);
      Log(s2, [NoCamerasLog])
    else
      assert lines + [] == lines;
      if arg == CameraListArg then s2.(cameras := CamerasOf(lines)) else s2
  }

  /** The diagnostic line follows the listing's lines in one window. */
  lemma NoCamerasLogged(s: HookState, lines: seq<string>)
    ensures Inv(s) ==> Inv(Log(Log(s, lines), [NoCamerasLog]))
    ensures Log(Log(s, lines), [NoCamerasLog]) == Log(s, lines + [NoCamerasLog])
  {
    LogInv(s, lines);
    LogInv(Log(s, lines), [NoCamerasLog]);
    LogBuffer.AppendTwice(s.logs, lines, [NoCamerasLog]);
  }

  // ---------------------------------------------------------------------
  // The hook as an object

  class ScrcpyHook {
    var devices: seq<string>
    var prevDevices: seq<string>
    var logs: seq<string>
    var history: seq<string>
    var running: seq<string>
    var activeDevice: string
    var isRefreshing: bool
    var cameras: seq<Camera>
    var config: Config
    var isInitialized: bool
    var storedConfig: Option<Config>
    var storedHistory: Option<seq<string>>
    /** The backend calls made so far. */
    ghost var trace: seq<Call>

    function View(): HookState
      reads this
    {
      HookState(devices, prevDevices, logs, history, running, activeDevice, isRefreshing,
                cameras, config, isInitialized, storedConfig, storedHistory)
    }

    predicate Valid()
      reads this
    {
      Inv(View())
    }

    constructor()
      ensures View() == Initial() && trace == [] && Valid()
    {
      devices, prevDevices, logs, history, running := [], [], [], [], [];
      activeDevice, isRefreshing, cameras := "", false, [];
      config, isInitialized, storedConfig, storedHistory := Defaults(), false, None, None;
      trace := [];
    }

    /** `setLogs(prev => [...prev.slice(-100), ...entries])`, windowed. */
    method AppendLogs(entries: seq<string>)
      requires Valid()
      modifies this
      ensures Valid() && View() == Log(old(View()), entries) && trace == old(trace)
    {
      LogInv(View(), entries);
      logs := LogBuffer.Append(logs, entries);
    }

    /** The `scrcpy-log` listener. */
    method OnLog(payload: string)
      requires Valid()
      modifies this
      ensures Valid() && View() == Log(old(View()), [payload]) && trace == old(trace)
    {
      AppendLogs([payload]);
    }

    /** `ids.forEach(id => setLogs(... prefix + id))`. */
    method LogEach(prefix: string, ids: seq<string>)
      requires Valid()
      modifies this
      ensures Valid() && View() == Log(old(View()), Tagged(prefix, ids)) && trace == old(trace)
    {
      ghost var s0 := View();
      assert LogBuffer.Append(s0.logs, []) == s0.logs;
      var i := 0;
      while i < |ids|
        invariant 0 <= i <= |ids|
        invariant logs == LogBuffer.Append(s0.logs, TaggedUpTo(prefix, ids, i))
        invariant View() == s0.(logs := logs) && trace == old(trace)
      {
        LogBuffer.AppendTwice(s0.logs, TaggedUpTo(prefix, ids, i), [prefix + ids[i]]);
        logs := LogBuffer.Append(logs, [prefix + ids[i]]);
        i := i + 1;
      }
      TaggedUpToAll(prefix, ids, i);
      assert ids[..i] == ids;
      LogInv(s0, Tagged(prefix, ids));
    }

    /** The `scrcpy-status` listener. */
    method OnStatus(e: StatusEvent)
      requires Valid()
      modifies this
      ensures Valid() && View() == StatusChanged(old(View()), e) && trace == old(trace)
    {
      if e.device != "" && e.running.Some? {
        if e.running.value {
          running := Dedup(running + [e.device]);
        } else {
          RemoveAllNoDup(running, e.device);
          running := RemoveAll(running, e.device);
        }
      }
    }

    /**
     * The `download-complete` status event: a (non-silent) refresh, then a
     * new check of the binary. The refresh is dropped like any other while
     * one is in flight.
     */
    method OnDownloadComplete(reply: Result<DeviceList, string>) returns (ran: bool)
      requires Valid()
      modifies this
      ensures Valid()
      ensures ran <==> !old(isRefreshing)
      ensures View() == Refreshed(old(View()), reply, false)
      ensures trace == old(trace) + (if ran then [GetDevices] else []) + [CheckBinary]
    {
      ran := RefreshDevices(reply, false);
      trace := trace + [CheckBinary];
    }

    predicate IsSessionRunning()
      reads this
    {
      SessionRunning(View())
    }

    /** Mount: the saved configuration (if parsable) is merged, then the hook is initialised. */
    method Hydrate(saved: Option<map<Field, Value>>)
      requires Valid()
      modifies this
      ensures Valid() && View() == Hydrated(old(View()), saved)
      ensures trace == old(trace) + MountChecks(saved)
    {
      if saved.Some? {
        config := Merge(config, saved.value);
      }
      trace := trace + MountChecks(saved);
      isInitialized := true;
      storedConfig := Some(config);
    }

    method LoadHistory(saved: Option<seq<string>>)
      requires Valid()
      modifies this
      ensures Valid() && View() == HistoryLoaded(old(View()), saved) && trace == old(trace)
    {
      if saved.Some? {
        history := saved.value;
      }
    }

    /** `initPaths`, after `get_videos_dir` answered `dir`. */
    method ApplyVideosDir(dir: Result<string, string>)
      requires Valid()
      modifies this
      ensures Valid() && View() == VideosDirApplied(old(View()), dir) && trace == old(trace) + [VideosDir]
    {
      trace := trace + [VideosDir];
      if dir.Ok? && !Truthy(config, RecordPath) {
        config := Set(config, RecordPath, Str(dir.value));
        if isInitialized {
          storedConfig := Some(config);
        }
      }
    }

    method SetConfig(c: Config)
      requires Valid()
      modifies this
      ensures Valid() && View() == ConfigSet(old(View()), c) && trace == old(trace)
    {
      config := c;
      if isInitialized {
        storedConfig := Some(config);
      }
    }

    method SetActiveDevice(d: string)
      requires Valid()
      modifies this
      ensures Valid() && View() == Select(old(View()), d) && trace == old(trace)
    {
      if d != activeDevice {
        cameras := [];
      }
      activeDevice := d;
    }

    method AddToHistory(ip: string)
      requires Valid()
      modifies this
      ensures Valid() && View() == HistoryAdded(old(View()), ip) && trace == old(trace)
    {
      if ':' !in ip {
        return;
      }
      var next := MruInsert(history, ip);
      history := next;
      storedHistory := Some(next);
    }

    method ClearHistory()
      requires Valid()
      modifies this
      ensures Valid() && View() == HistoryCleared(old(View())) && trace == old(trace)
    {
      history := [];
      storedHistory := None;
    }

    /** The start of `refreshDevices`: the re-entrancy guard, then the `get_devices` call. */
    method BeginRefresh() returns (started: bool)
      requires Valid()
      modifies this
      ensures Valid()
      ensures started <==> !old(isRefreshing)
      ensures !started ==> View() == old(View()) && trace == old(trace)
      ensures started ==> View() == old(View()).(isRefreshing := true) && trace == old(trace) + [GetDevices]
    {
      if isRefreshing {
        return false;
      }
      isRefreshing := true;
      trace := trace + [GetDevices];
      return true;
    }

    /** The lines a listing appends: one per added id, one per removed id, then the summary. */
    method LogDiff(ids: seq<string>, silent: bool)
      requires Valid()
      modifies this
      ensures Valid() && trace == old(trace)
      ensures View() == Log(old(View()), RefreshLogs(old(prevDevices), Ok(DeviceIds(ids)), silent))
    {
      var logs0 := logs;
      var added := Without(ids, prevDevices);
      var removed := Without(prevDevices, ids);
      var tail := if !silent && added == [] && removed == [] then [DiscoveryActive(|ids|)] else [];
      LogEach(NewDevicePrefix, added);
      LogEach(GonePrefix, removed);
      LogBuffer.AppendTwice(logs0, Tagged(NewDevicePrefix, added), Tagged(GonePrefix, removed));
      if tail != [] {
        AppendLogs(tail);
        LogBuffer.AppendTwice(logs0, Tagged(NewDevicePrefix, added) + Tagged(GonePrefix, removed), tail);
      } else {
        assert Tagged(NewDevicePrefix, added) + Tagged(GonePrefix, removed) + tail
          == Tagged(NewDevicePrefix, added) + Tagged(GonePrefix, removed);
      }
    }

    method ApplyListing(ids: seq<string>, silent: bool)
      requires Valid()
      modifies this
      ensures Valid() && View() == Listing(old(View()), ids, silent) && trace == old(trace)
    {
      var active := activeDevice;
      LogDiff(ids, silent);
      devices := ids;
      prevDevices := ids;
      if ids != [] && active == "" {
        SetActiveDevice(ids[0]);
      }
    }

    /** The rest of `refreshDevices`, once `get_devices` answered `reply`. */
    method EndRefresh(reply: Result<DeviceList, string>, silent: bool)
      requires Valid()
      modifies this
      ensures Valid() && View() == RefreshEnded(old(View()), reply, silent) && trace == old(trace)
    {
      if Listed(reply) {
        ApplyListing(reply.value.ids, silent);
      } else {
        AppendLogs(RefreshLogs(prevDevices, reply, silent));
      }
      isRefreshing := false;
    }

    /** `refreshDevices(silent)` run to completion with `get_devices` answering `reply`. */
    method RefreshDevices(reply: Result<DeviceList, string>, silent: bool) returns (ran: bool)
      requires Valid()
      modifies this
      ensures Valid()
      ensures ran <==> !old(isRefreshing)
      ensures View() == Refreshed(old(View()), reply, silent)
      ensures trace == old(trace) + (if ran then [GetDevices] else [])
    {
      ran := BeginRefresh();
      if ran {
        EndRefresh(reply, silent);
      }
    }

    /** The attempts of `connectDevice`: the reply it goes on with. */
    method Attempt(ip: string, retry: bool, first: Result<Reply, string>, cleanup: Option<string>,
                   second: Result<Reply, string>)
      returns (final: Result<Reply, string>)
      requires Valid()
      modifies this
      ensures Valid() && final == FinalOf(retry, first, cleanup, second)
      ensures View() == Log(old(View()), RetryLogs(retry))
      ensures trace == old(trace) + AttemptCalls(ip, retry, cleanup)
    {
      ghost var t0 := trace;
      trace := trace + [AdbConnect(ip)];
      if retry {
        final := Retry(ip, cleanup, second);
      } else {
        final := first;
        LogNothing(View());
      }
      AttemptTrace(t0, ip, retry, cleanup);
    }

    /** The cleanup `adb disconnect`, the 500 ms pause and the second `adb_connect`. */
    method Retry(ip: string, cleanup: Option<string>, second: Result<Reply, string>)
      returns (final: Result<Reply, string>)
      requires Valid()
      modifies this
      ensures Valid() && final == (if cleanup.Some? then Err(cleanup.value) else second)
      ensures View() == Log(old(View()), [RetryLog])
      ensures trace == old(trace) + RetryCalls(ip, cleanup)
    {
      AppendLogs([RetryLog]);
      trace := trace + [Disconnect(ip)];
      if cleanup.Some? {
        final := Err(cleanup.value);
      } else {
        trace := trace + [Settle(500), AdbConnect(ip)];
        final := second;
      }
    }

    /** What `connectDevice` does with the reply it ends up with. */
    method Finish(ip: string, final: Result<Reply, string>, refresh: Result<DeviceList, string>)
      returns (reply: Reply)
      requires Valid()
      modifies this
      ensures Valid() && reply == ReplyOf(final)
      ensures View() == ConnectFinished(old(View()), ip, final, refresh)
      ensures trace == old(trace) + FinishCalls(final)
    {
      match final {
        case Err(e) =>
          AppendLogs([ConnectError(e)]);
          isRefreshing := false;
          reply := Reply(false, e);
        case Ok(res) =>
          if res.success {
            Succeeded(ip, refresh);
          } else {
            AppendLogs(FailureLogs(res.message));
            isRefreshing := false;
          }
          reply := res;
      }
    }

    method Succeeded(ip: string, refresh: Result<DeviceList, string>)
      requires Valid()
      modifies this
      ensures Valid() && View() == ConnectSucceeded(old(View()), ip, refresh)
      ensures trace == old(trace) + [Settle(1000), GetDevices]
    {
      AppendLogs([Connected(ip)]);
      AddToHistory(ip);
      trace := trace + [Settle(1000)];
      isRefreshing := false;
      var ran := RefreshDevices(refresh, true);
    }

    /**
     * `connectDevice(ip)`: `first` answers the first `adb_connect`;
     * `cleanup` is the rejection of the `adb disconnect` command, if any;
     * `second` answers the retry and `refresh` the closing `get_devices`.
     */
    method ConnectDevice(ip: string, first: Result<Reply, string>, cleanup: Option<string>,
                         second: Result<Reply, string>, refresh: Result<DeviceList, string>)
      returns (reply: Reply)
      requires Valid()
      modifies this
      ensures Valid()
      ensures reply == ReplyOf(ConnectFinal(first, cleanup, second))
      ensures View() == ConnectState(old(View()), ip, first, cleanup, second, refresh)
      ensures trace == old(trace) + AttemptCalls(ip, Retries(first), cleanup) + FinishCalls(ConnectFinal(first, cleanup, second))
    {
      ghost var s0 := View();
      isRefreshing := true;
      var final := Attempt(ip, Retries(first), first, cleanup, second);
      assert final == ConnectFinal(first, cleanup, second);
      assert View() == Log(s0.(isRefreshing := true), RetryLogs(Retries(first)));
      reply := Finish(ip, final, refresh);
    }

    /** `pairDevice(ip, code)`: `reply` answers `adb_pair`, `refresh` the follow-up `get_devices`. */
    method PairDevice(ip: string, code: string, reply: Result<Reply, string>, refresh: Result<DeviceList, string>)
      returns (result: Reply)
      requires Valid()
      modifies this
      ensures Valid()
      ensures result == ReplyOf(reply)
      ensures View() == PairState(old(View()), ip, reply, refresh)
      ensures trace == old(trace) + PairCalls(old(View()), ip, code, reply)
    {
      trace := trace + [AdbPair(ip, code)];
      match reply {
        case Err(e) =>
          AppendLogs([PairError(e)]);
          result := Reply(false, e);
        case Ok(res) =>
          if res.success {
            AppendLogs([Paired(ip)]);
            var ran := RefreshDevices(refresh, true);
          } else {
            AppendLogs(PairFailureLogs(res.message));
          }
          result := res;
      }
    }

    /** `listScrcpyOptions(device, arg)`: `reply` is the output `list_scrcpy_options` returned. */
    method ListScrcpyOptions(device: string, arg: string, reply: Result<string, string>)
      requires Valid()
      modifies this
      ensures Valid()
      ensures View() == OptionsListed(old(View()), arg, reply)
      ensures trace == old(trace) + [ListOptions(device, arg)]
    {
      AppendLogs([RunningOptions(arg)]);
      trace := trace + [ListOptions(device, arg)];
      match reply {
        case Err(e) =>
          AppendLogs([OptionsError(e)]);
        case Ok(out) =>
          ShowOptions(arg, out);
      }
    }

    /** The successful half of `listScrcpyOptions`, after the "running" line. */
    method ShowOptions(arg: string, out: string)
      requires Valid()
      modifies this
      ensures Valid()
      ensures View() == OptionsShown(old(View()), arg, out)
      ensures trace == old(trace)
    {
      if out != "" {
        AppendLogs(SplitOn(out, '\n'));
        ghost var s2 := View();
        if arg == CameraListArg {
          var found := ParseCameras(out);
          if found != [] {
            cameras := found;
            assert View() == s2.(cameras := found);
          } else {
            AppendLogs([NoCamerasLog]);
          }
        }
      }
    }
  }
}
