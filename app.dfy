/**
 * The top-level component's handlers. They read and update the hook's state
 * and start backend work; the backend commands they start are returned as
 * a sequence of `Op`s, in the order they are issued.
 */
module App {
  import opened Wrappers
  import opened Text
  import opened Config
  import Hook

  /** A backend command started by a handler. */
  datatype Op =
    | InstallApk(device: string, path: string)
    | PushFile(device: string, path: string)
    | RunScrcpy(config: Config)
    | StopScrcpy(device: string)
    | CheckScrcpy(customPath: Option<string>)  // the `check_scrcpy` call that Hook.CheckBinary records from inside the hook

  // ---------------------------------------------------------------------
  // Device sync
  // ---------------------------------------------------------------------

  /** The effect keeping `config.device` equal to a non-empty active device. */
  function SyncDevice(c: Config, active: string): (r: Config)
    ensures active != "" ==> DeviceOf(r) == active
    ensures active == "" ==> r == c
    ensures forall g :: g != Device ==> (g in r <==> g in c) && (g in c ==> r[g] == c[g])
  {
    if active == "" then c
    else
      SetFrame(c, Device, Str(active));
      Set(c, Device, Str(active))
  }

  /** Syncing twice is syncing once. */
  lemma SyncIdempotent(c: Config, active: string)
    ensures SyncDevice(SyncDevice(c, active), active) == SyncDevice(c, active)
  {
    var r := SyncDevice(c, active);
    var r2 := SyncDevice(r, active);
    assert forall g :: g in r2 <==> g in r;
  }

  // ---------------------------------------------------------------------
  // File operations
  // ---------------------------------------------------------------------

  const ApkSuffix := ".apk"

  /** `path.toLowerCase().endsWith('.apk')`. */
  predicate IsApk(path: string) {
    EndsWith(ToLower(path), ApkSuffix)
  }

  /** The test ignores letter case: a path and its lower-cased form are classified alike. */
  lemma ApkIgnoresCase(path: string)
    ensures IsApk(path) <==> IsApk(ToLower(path))
  {
    var l := ToLower(path);
    assert ToLower(l) == l by {
      forall i | 0 <= i < |l|
        ensures ToLower(l)[i] == l[i]
      {
      }
    }
  }

  /** Upper- or mixed-case extensions count; another extension does not. */
  lemma ApkExtensions(stem: string)
    ensures IsApk(stem + ".apk") && IsApk(stem + ".APK")
    ensures !IsApk(stem + ".txt")
  {
    var a := stem + ".apk";
    var u := stem + ".APK";
    assert ToLower(a)[|a| - 4..] == ApkSuffix by {
      forall i | 0 <= i < 4
        ensures ToLower(a)[|a| - 4 + i] == ApkSuffix[i]
      {
        assert a[|stem| + i] == ".apk"[i];
      }
    }
    assert ToLower(u)[|u| - 4..] == ApkSuffix by {
      forall i | 0 <= i < 4
        ensures ToLower(u)[|u| - 4 + i] == ApkSuffix[i]
      {
        assert u[|stem| + i] == ".APK"[i];
      }
    }
    var t := stem + ".txt";
    assert ToLower(t)[|t| - 1] == 't';
  }

  /** `handleFileOperation(path)`: nothing without an active device, otherwise one install or one push. */
  function FileOperation(active: string, path: string): (ops: seq<Op>)
    ensures active == "" <==> ops == []
    ensures active != "" ==> |ops| == 1
    ensures active != "" ==> (ops[0] == InstallApk(active, path) <==> IsApk(path))
    ensures active != "" ==> (ops[0] == PushFile(active, path) <==> !IsApk(path))
  {
    if active == "" then []
    else if IsApk(path) then [InstallApk(active, path)]
    else [PushFile(active, path)]
  }

  /** `paths.forEach(path => handleFileOperation(path))`. */
  function FileOps(active: string, paths: seq<string>): seq<Op>
    decreases |paths|
  {
    if paths == [] then []
    else FileOps(active, paths[..|paths| - 1]) + FileOperation(active, paths[|paths| - 1])
  }

  /** With an active device, every path is handled exactly once, in order. */
  lemma {:induction false} FileOpsEachOnce(active: string, paths: seq<string>)
    requires active != ""
    ensures |FileOps(active, paths)| == |paths|
    ensures forall i :: 0 <= i < |paths| ==> FileOps(active, paths)[i] == FileOperation(active, paths[i])[0]
    decreases |paths|
  {
    if paths != [] {
      var init := paths[..|paths| - 1];
      FileOpsEachOnce(active, init);
      assert forall i :: 0 <= i < |init| ==> paths[i] == init[i];
    }
  }

  /** Without an active device no path produces a command. */
  lemma {:induction false} FileOpsNoDevice(paths: seq<string>)
    ensures FileOps("", paths) == []
    decreases |paths|
  {
    if paths != [] {
      FileOpsNoDevice(paths[..|paths| - 1]);
    }
  }

  /** Dropping paths one batch after another is the same as dropping them together. */
  lemma {:induction false} FileOpsAppend(active: string, a: seq<string>, b: seq<string>)
    ensures FileOps(active, a + b) == FileOps(active, a) + FileOps(active, b)
    decreases |b|
  {
    if b == [] {
      assert a + b == a;
    } else {
      var b' := b[..|b| - 1];
      assert (a + b)[..|a + b| - 1] == a + b';
      FileOpsAppend(active, a, b');
    }
  }

  const NoDeviceWarning := "[WARN] No device selected for drag-and-drop operation."
  const PathSetPrefix := Hook.SystemTag + "Custom scrcpy path set to: "
  const PathCleared := Hook.SystemTag + "Custom scrcpy path cleared. Using system default."

  // ---------------------------------------------------------------------
  // Custom binary path
  // ---------------------------------------------------------------------

  /** `{ ...prev, scrcpyPath: selected }`. */
  function PathSet(c: Config, path: string): (r: Config)
    ensures StrOf(r, ScrcpyPath) == Some(path)
    ensures forall g :: g != ScrcpyPath ==> (g in r <==> g in c) && (g in c ==> r[g] == c[g])
  {
    SetFrame(c, ScrcpyPath, Str(path));
    Set(c, ScrcpyPath, Str(path))
  }

  /** `{ ...prev, scrcpyPath: undefined }`. */
  function PathReset(c: Config): (r: Config)
    ensures ScrcpyPath !in r
    ensures forall g :: g != ScrcpyPath ==> (g in r <==> g in c) && (g in c ==> r[g] == c[g])
  {
    Unset(c, ScrcpyPath)
  }

  /** Resetting after choosing a path forgets the choice entirely. */
  lemma ResetAfterSet(c: Config, path: string)
    ensures PathReset(PathSet(c, path)) == PathReset(c)
  {
    var a := PathReset(PathSet(c, path));
    var b := PathReset(c);
    assert forall g :: g in a <==> g in b;
  }

  // ---------------------------------------------------------------------
  // Handlers
  // ---------------------------------------------------------------------

  /** `handleStart`: run a session with the current configuration, if a device is selected. */
  method HandleStart(hook: Hook.ScrcpyHook) returns (ops: seq<Op>)
    ensures hook.activeDevice == "" ==> ops == []
    ensures hook.activeDevice != "" ==> ops == [RunScrcpy(hook.config)]
  {
    if hook.activeDevice == "" {
      return [];
    }
    ops := [RunScrcpy(hook.config)];
  }

  /** `handleStop`: stop the selected device's session, if a device is selected. */
  method HandleStop(hook: Hook.ScrcpyHook) returns (ops: seq<Op>)
    ensures hook.activeDevice == "" ==> ops == []
    ensures hook.activeDevice != "" ==> ops == [StopScrcpy(hook.activeDevice)]
  {
    if hook.activeDevice == "" {
      return [];
    }
    ops := [StopScrcpy(hook.activeDevice)];
  }

  /** `handleFileBrowse`: every chosen file is installed or pushed, in order. */
  method HandleFileBrowse(hook: Hook.ScrcpyHook, selected: seq<string>) returns (ops: seq<Op>)
    ensures ops == FileOps(hook.activeDevice, selected)
  {
    var active := hook.activeDevice;
    if active == "" {
      FileOpsNoDevice(selected);
      return [];
    }
    ops := ForEachFile(active, selected);
  }

  /** The `forEach` loop over the paths of a drop or a browse. */
  method ForEachFile(active: string, paths: seq<string>) returns (ops: seq<Op>)
    ensures ops == FileOps(active, paths)
  {
    ops := [];
    var i := 0;
    while i < |paths|
      invariant 0 <= i <= |paths|
      invariant ops == FileOps(active, paths[..i])
    {
      assert paths[..i + 1][..i] == paths[..i];
      ops := ops + FileOperation(active, paths[i]);
      i := i + 1;
    }
    assert paths[..i] == paths;
  }

  /**
   * The drag-and-drop listener: without a device it logs one warning and
   * starts nothing; otherwise each dropped path is handled once, in order.
   */
  method HandleDrop(hook: Hook.ScrcpyHook, paths: seq<string>) returns (ops: seq<Op>)
    requires hook.Valid()
    modifies hook
    ensures hook.Valid() && hook.trace == old(hook.trace)
    ensures old(hook.activeDevice) == "" ==> ops == [] && hook.View() == Hook.Log(old(hook.View()), [NoDeviceWarning])
    ensures old(hook.activeDevice) != "" ==> ops == FileOps(old(hook.activeDevice), paths) && hook.View() == old(hook.View())
  {
    if hook.activeDevice == "" {
      hook.AppendLogs([NoDeviceWarning]);
      return [];
    }
    ops := ForEachFile(hook.activeDevice, paths);
  }

  /** The effect that copies the active device into the configuration. */
  method SyncActiveDevice(hook: Hook.ScrcpyHook)
    requires hook.Valid()
    modifies hook
    ensures hook.Valid() && hook.trace == old(hook.trace)
    ensures old(hook.activeDevice) == "" ==> hook.View() == old(hook.View())
    ensures old(hook.activeDevice) != "" ==>
      hook.View() == Hook.ConfigSet(old(hook.View()), SyncDevice(old(hook.config), old(hook.activeDevice)))
  {
    if hook.activeDevice != "" {
      hook.SetConfig(SyncDevice(hook.config, hook.activeDevice));
    }
  }

  /**
   * `handleSetPath`: a chosen folder becomes the custom path, is logged and
   * is checked; a cancelled dialog (no selection or an empty one) changes nothing.
   */
  method HandleSetPath(hook: Hook.ScrcpyHook, selected: Option<string>) returns (ops: seq<Op>)
    requires hook.Valid()
    modifies hook
    ensures hook.Valid() && hook.trace == old(hook.trace)
    ensures selected.None? || selected.value == "" ==> ops == [] && hook.View() == old(hook.View())
    ensures selected.Some? && selected.value != "" ==>
      ops == [CheckScrcpy(selected)]
      && hook.View() == Hook.Log(Hook.ConfigSet(old(hook.View()), PathSet(old(hook.config), selected.value)),
                                 [PathSetPrefix + selected.value])
  {
    if selected.None? || selected.value == "" {
      return [];
    }
    hook.SetConfig(PathSet(hook.config, selected.value));
    hook.AppendLogs([PathSetPrefix + selected.value]);
    ops := [CheckScrcpy(selected)];
  }

  /** `handleResetPath`: the custom path is removed, logged and the default binary checked. */
  method HandleResetPath(hook: Hook.ScrcpyHook) returns (ops: seq<Op>)
    requires hook.Valid()
    modifies hook
    ensures hook.Valid() && hook.trace == old(hook.trace)
    ensures ops == [CheckScrcpy(None)]
    ensures hook.View() == Hook.Log(Hook.ConfigSet(old(hook.View()), PathReset(old(hook.config))), [PathCleared])
  {
    hook.SetConfig(PathReset(hook.config));
    hook.AppendLogs([PathCleared]);
    ops := [CheckScrcpy(None)];
  }
}
