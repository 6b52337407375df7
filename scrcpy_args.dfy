/**
 * The scrcpy argument vector built from a session configuration
 * (`build_scrcpy_args`). `ScrcpyArgv` gives the vector as a sequence of
 * segments, one per group of flags; `BuildScrcpyArgs` pushes the flags one
 * at a time and is proved to produce that vector. The lemmas state the
 * rules the vector obeys: which settings matter in which session mode.
 *
 * The recording file name holds a local timestamp; it is a parameter here.
 */
module ScrcpyArgs {
  import opened Wrappers
  import opened Text
  import opened Config

  /** `-s <device>` when a device is chosen. */
  function Selector(c: Config): seq<string> {
    if DeviceOf(c) != "" then ["-s", DeviceOf(c)] else []
  }

  function CodecName(c: Config): string {
    StrOf(c, Codec).GetOr("h264")
  }

  function CodecFlag(c: Config): string {
    "--video-codec=" + CodecName(c)
  }

  predicate OtgOn(c: Config) {
    BoolOf(c, OtgEnabled).GetOr(false)
  }

  /** Mirror mode with both OTG switches on: keyboard and mouse only. */
  predicate PureOtg(c: Config) {
    ModeOf(c) == "mirror" && OtgOn(c) && BoolOf(c, OtgPure).GetOr(false)
  }

  /** A device id with '.' or ':' is a network device, which cannot use `--otg`. */
  predicate NetworkId(d: string) {
    '.' in d || ':' in d
  }

  function OtgFlags(c: Config): seq<string> {
    if NetworkId(DeviceOf(c)) then ["--no-video", "--no-audio", "--keyboard=uhid", "--mouse=uhid"]
    else ["--otg"]
  }

  /** The flags of an optional switch that is present and true. */
  function IfTrue(c: Config, f: Field, flags: seq<string>): seq<string> {
    if BoolOf(c, f) == Some(true) then flags else []
  }

  /** The flag and value of an optional string setting that is present and not "0". */
  function IfNotZero(c: Config, f: Field, flag: string): seq<string> {
    match StrOf(c, f)
    case Some(v) => if v != "0" then [flag, v] else []
    case None => []
  }

  function RateFlags(c: Config): seq<string> {
    match NumOf(c, Bitrate)
    case Some(b) => ["--video-bit-rate", NatToString(b) + "M"]
    case None => []
  }

  function WindowFlags(c: Config): seq<string> {
    (if BoolOf(c, AudioEnabled) == Some(false) then ["--no-audio"] else [])
    + IfTrue(c, AlwaysOnTop, ["--always-on-top"])
    + IfTrue(c, Fullscreen, ["--fullscreen"])
    + IfTrue(c, Borderless, ["--window-borderless"])
  }

  /** Stay-awake and screen-off need control of the device, which camera sessions do not have. */
  function ControlFlags(c: Config): seq<string> {
    if ModeOf(c) != "camera" then
      IfTrue(c, StayAwake, ["--stay-awake"]) + IfTrue(c, TurnOff, ["--turn-screen-off", "--no-power-on"])
    else []
  }

  function FacingFlags(c: Config): seq<string> {
    match StrOf(c, CameraFacing)
    case Some(f) => ["--camera-facing=" + f]
    case None => []
  }

  /** A non-empty camera id selects the camera; otherwise the facing does. */
  function CameraSelect(c: Config): seq<string> {
    match StrOf(c, CameraId)
    case Some(id) => if id != "" then ["--camera-id=" + id] else FacingFlags(c)
    case None => FacingFlags(c)
  }

  function CameraFlags(c: Config): seq<string> {
    ["--video-source=camera"] + CameraSelect(c)
    + (match StrOf(c, CameraAr) case Some(ar) => if ar != "0" then ["--camera-ar=" + ar] else [] case None => [])
    + IfTrue(c, CameraHighSpeed, ["--camera-high-speed"])
  }

  /** `--new-display=WxH/DPI`, with 1920, 1080 and 420 for missing values. */
  function NewDisplay(c: Config): string {
    "--new-display=" + NatToString(NumOf(c, VdWidth).GetOr(1920)) + "x"
    + NatToString(NumOf(c, VdHeight).GetOr(1080)) + "/" + NatToString(NumOf(c, VdDpi).GetOr(420))
  }

  function ModeFlags(c: Config): seq<string> {
    if ModeOf(c) == "camera" then CameraFlags(c)
    else if ModeOf(c) == "desktop" then [NewDisplay(c), "--video-buffer=100"]
    else if OtgOn(c) then ["--keyboard=uhid", "--mouse=uhid"]
    else []
  }

  /** Frame rate: `--camera-fps` for cameras, `--max-fps` otherwise; 60 for a high-speed camera without one. */
  function FpsFlags(c: Config): seq<string> {
    match NumOf(c, Fps)
    case Some(f) => [if ModeOf(c) == "camera" then "--camera-fps" else "--max-fps", NatToString(f)]
    case None =>
      if ModeOf(c) == "camera" && BoolOf(c, CameraHighSpeed).GetOr(false) then ["--camera-fps", "60"] else []
  }

  /** The recording directory: the configured one, or the fallback (else ".") when it is blank. */
  function RecordDir(path: Option<string>, videoDir: Option<string>): string {
    var p := path.GetOr("");
    if Trim(p) == "" then videoDir.GetOr(".") else p
  }

  /** `scrcpy_<device with ':' as '-'>_<stamp>.mkv`. */
  function RecordFile(device: string, stamp: string): string {
    "scrcpy_" + ReplaceChar(device, ':', '-') + "_" + stamp + ".mkv"
  }

  /** `Path::join` of a directory and a relative file name, with '/' as separator. */
  function JoinPath(dir: string, file: string): (r: string)
    ensures EndsWith(r, file)
  {
    if dir == [] || dir[|dir| - 1] == '/' then dir + file else dir + "/" + file
  }

  function RecordFlags(c: Config, videoDir: Option<string>, stamp: string): seq<string> {
    RecordFlagsOf(BoolOf(c, Record), StrOf(c, RecordPath), DeviceOf(c), videoDir, stamp)
  }

  /** The recording flag from the settings it reads: the switch, the directory and the device. */
  function RecordFlagsOf(record: Option<bool>, path: Option<string>, device: string, videoDir: Option<string>, stamp: string)
    : seq<string>
  {
    if record == Some(true) then ["--record=" + JoinPath(RecordDir(path, videoDir), RecordFile(device, stamp))]
    else []
  }

  /** The flags before the frame rate: bitrate, window, orientation, control and mode. */
  function LeadingFlags(c: Config): seq<string> {
    RateFlags(c) + WindowFlags(c) + IfNotZero(c, Rotation, "--orientation") + ControlFlags(c) + ModeFlags(c)
  }

  /** The flags after the frame rate: size limit and recording. */
  function TrailingFlags(c: Config, videoDir: Option<string>, stamp: string): seq<string> {
    IfNotZero(c, Res, "--max-size") + RecordFlags(c, videoDir, stamp)
  }

  /** Everything after the codec flag in a session that is not pure OTG. */
  function SessionFlags(c: Config, videoDir: Option<string>, stamp: string): seq<string> {
    LeadingFlags(c) + FpsFlags(c) + TrailingFlags(c, videoDir, stamp)
  }

  /** The argument vector of `build_scrcpy_args`. */
  function ScrcpyArgv(c: Config, videoDir: Option<string>, stamp: string): (a: seq<string>)
    ensures |a| > |Selector(c)| && a[..|Selector(c)|] == Selector(c) && a[|Selector(c)|] == CodecFlag(c)
  {
    Selector(c) + [CodecFlag(c)] + (if PureOtg(c) then OtgFlags(c) else SessionFlags(c, videoDir, stamp))
  }

  /** `build_scrcpy_args`, pushing one flag at a time. */
  method BuildScrcpyArgs(c: Config, videoDir: Option<string>, stamp: string) returns (args: seq<string>)
    ensures args == ScrcpyArgv(c, videoDir, stamp)
  {
    args := [];
    var device := DeviceOf(c);
    var mode := ModeOf(c);
    if device != "" {
      args := args + ["-s", device];
    }
    var codec := StrOf(c, Codec).GetOr("h264");
    args := args + ["--video-codec=" + codec];
    ghost var lead := args;
    assert lead == Selector(c) + [CodecFlag(c)];
    var otgEnabled := BoolOf(c, OtgEnabled).GetOr(false);
    var otgPure := BoolOf(c, OtgPure).GetOr(false);
    if mode == "mirror" && otgEnabled && otgPure {
      if '.' in device || ':' in device {
        args := args + ["--no-video", "--no-audio", "--keyboard=uhid", "--mouse=uhid"];
      } else {
        args := args + ["--otg"];
      }
      return;
    }
    var rest := PushSessionFlags(c, videoDir, stamp);
    args := args + rest;
  }

  /** The non-OTG branch of `build_scrcpy_args`, group by group. */
  method PushSessionFlags(c: Config, videoDir: Option<string>, stamp: string) returns (args: seq<string>)
    ensures args == SessionFlags(c, videoDir, stamp)
  {
    args := PushLeadingFlags(c);
    var fpsFlags := PushFpsFlags(c);
    args := args + fpsFlags;
    var trailing := PushTrailingFlags(c, videoDir, stamp);
    args := args + trailing;
  }

  /** Bitrate, window, orientation, control and mode flags. */
  method PushLeadingFlags(c: Config) returns (args: seq<string>)
    ensures args == LeadingFlags(c)
  {
    args := [];
    var bitrate := NumOf(c, Bitrate);
    if bitrate.Some? {
      args := args + ["--video-bit-rate", NatToString(bitrate.value) + "M"];
    }
    assert args == RateFlags(c);
    var window := PushWindowFlags(c);
    args := args + window;
    ghost var a1 := args;
    var rot := StrOf(c, Rotation);
    if rot.Some? && rot.value != "0" {
      args := args + ["--orientation", rot.value];
    }
    assert args == a1 + IfNotZero(c, Rotation, "--orientation");
    var control := PushControlFlags(c);
    args := args + control;
    var modeFlags := PushModeFlags(c);
    args := args + modeFlags;
  }

  /** Size limit and recording. */
  method PushTrailingFlags(c: Config, videoDir: Option<string>, stamp: string) returns (args: seq<string>)
    ensures args == TrailingFlags(c, videoDir, stamp)
  {
    args := [];
    var res := StrOf(c, Res);
    if res.Some? && res.value != "0" {
      args := args + ["--max-size", res.value];
    }
    assert args == IfNotZero(c, Res, "--max-size");
    var record := PushRecordFlags(c, videoDir, stamp);
    args := args + record;
  }

  /** Audio off and the window switches. */
  method PushWindowFlags(c: Config) returns (args: seq<string>)
    ensures args == WindowFlags(c)
  {
    args := [];
    var audio := BoolOf(c, AudioEnabled);
    if audio.Some? && !audio.value { args := args + ["--no-audio"]; }
    ghost var a1 := args;
    var aot := BoolOf(c, AlwaysOnTop);
    if aot.Some? && aot.value { args := args + ["--always-on-top"]; }
    assert args == a1 + IfTrue(c, AlwaysOnTop, ["--always-on-top"]);
    ghost var a2 := args;
    var fs := BoolOf(c, Fullscreen);
    if fs.Some? && fs.value { args := args + ["--fullscreen"]; }
    assert args == a2 + IfTrue(c, Fullscreen, ["--fullscreen"]);
    ghost var a3 := args;
    var bl := BoolOf(c, Borderless);
    if bl.Some? && bl.value { args := args + ["--window-borderless"]; }
    assert args == a3 + IfTrue(c, Borderless, ["--window-borderless"]);
  }

  /** Stay-awake and screen-off, outside camera sessions. */
  method PushControlFlags(c: Config) returns (args: seq<string>)
    ensures args == ControlFlags(c)
  {
    args := [];
    var canControl := ModeOf(c) != "camera";
    if canControl {
      var sa := BoolOf(c, StayAwake);
      if sa.Some? && sa.value { args := args + ["--stay-awake"]; }
      ghost var a1 := args;
      var to := BoolOf(c, TurnOff);
      if to.Some? && to.value { args := args + ["--turn-screen-off", "--no-power-on"]; }
      assert args == a1 + IfTrue(c, TurnOff, ["--turn-screen-off", "--no-power-on"]);
    }
  }

  /** The frame-rate flags. */
  method PushFpsFlags(c: Config) returns (args: seq<string>)
    ensures args == FpsFlags(c)
  {
    var mode := ModeOf(c);
    args := [];
    var fps := NumOf(c, Fps);
    if fps.Some? {
      if mode == "camera" {
        args := args + ["--camera-fps"];
      } else {
        args := args + ["--max-fps"];
      }
      args := args + [NatToString(fps.value)];
    } else if mode == "camera" && BoolOf(c, CameraHighSpeed).GetOr(false) {
      args := args + ["--camera-fps", "60"];
    }
  }

  /** The recording flag, with the directory fallback. */
  method PushRecordFlags(c: Config, videoDir: Option<string>, stamp: string) returns (args: seq<string>)
    ensures args == RecordFlags(c, videoDir, stamp)
  {
    args := [];
    var rec := BoolOf(c, Record);
    if rec.Some? && rec.value {
      var path := StrOf(c, RecordPath).GetOr("");
      if Trim(path) == "" {
        path := videoDir.GetOr(".");
      }
      var filename := "scrcpy_" + ReplaceChar(DeviceOf(c), ':', '-') + "_" + stamp + ".mkv";
      args := args + ["--record=" + JoinPath(path, filename)];
    }
  }

  /** The session-mode branch: camera selection, virtual display, or OTG input for mirroring. */
  method PushModeFlags(c: Config) returns (args: seq<string>)
    ensures args == ModeFlags(c)
  {
    var mode := ModeOf(c);
    args := [];
    if mode == "camera" {
      args := PushCameraFlags(c);
    } else if mode == "desktop" {
      var w := NumOf(c, VdWidth).GetOr(1920);
      var h := NumOf(c, VdHeight).GetOr(1080);
      var dpi := NumOf(c, VdDpi).GetOr(420);
      args := args + ["--new-display=" + NatToString(w) + "x" + NatToString(h) + "/" + NatToString(dpi), "--video-buffer=100"];
    } else {
      if BoolOf(c, OtgEnabled).GetOr(false) {
        args := args + ["--keyboard=uhid", "--mouse=uhid"];
      }
    }
  }

  /** Camera source, camera selection, aspect ratio and high speed. */
  method PushCameraFlags(c: Config) returns (args: seq<string>)
    ensures args == CameraFlags(c)
  {
    args := ["--video-source=camera"];
    var cid := StrOf(c, CameraId);
    var facing := StrOf(c, CameraFacing);
    if cid.Some? {
      if cid.value != "" {
        args := args + ["--camera-id=" + cid.value];
      } else if facing.Some? {
        args := args + ["--camera-facing=" + facing.value];
      }
    } else if facing.Some? {
      args := args + ["--camera-facing=" + facing.value];
    }
    assert args == ["--video-source=camera"] + CameraSelect(c);
    ghost var a1 := args;
    var ar := StrOf(c, CameraAr);
    if ar.Some? && ar.value != "0" {
      args := args + ["--camera-ar=" + ar.value];
    }
    ghost var a2 := args;
    var chs := BoolOf(c, CameraHighSpeed);
    if chs.Some? && chs.value {
      args := args + ["--camera-high-speed"];
    }
    assert args == a2 + IfTrue(c, CameraHighSpeed, ["--camera-high-speed"]);
  }

  // ---------------------------------------------------------------------
  // Properties of the argument vector
  // ---------------------------------------------------------------------

  /** The vector starts with `-s <device>` exactly when a device is chosen. */
  lemma SerialPrefixIffDevice(c: Config, videoDir: Option<string>, stamp: string)
    ensures var a := ScrcpyArgv(c, videoDir, stamp);
      (|a| >= 2 && a[0] == "-s" && a[1] == DeviceOf(c)) <==> DeviceOf(c) != ""
  {
    var a := ScrcpyArgv(c, videoDir, stamp);
    if DeviceOf(c) == "" {
      assert Selector(c) == [];
      CodecFlagIsNotSerial(c);
    } else {
      assert a[..2] == ["-s", DeviceOf(c)];
      assert a[0] == a[..2][0] && a[1] == a[..2][1];
    }
  }

  lemma CodecFlagIsNotSerial(c: Config)
    ensures CodecFlag(c) != "-s"
  {
    assert |CodecFlag(c)| > 2;
  }

  /** The codec flag is always present, right after the selector; h264 when no codec is set. */
  lemma CodecAlwaysPresent(c: Config, videoDir: Option<string>, stamp: string)
    ensures CodecFlag(c) in ScrcpyArgv(c, videoDir, stamp)
    ensures Codec !in c ==> "--video-codec=h264" in ScrcpyArgv(c, videoDir, stamp)
  {
    var a := ScrcpyArgv(c, videoDir, stamp);
    assert a[|Selector(c)|] == CodecFlag(c);
    assert Codec !in c ==> CodecFlag(c) == "--video-codec=" + "h264" == "--video-codec=h264";
  }

  /** Pure OTG emits the selector, the codec and the OTG flags, nothing else. */
  lemma PureOtgOnlyOtgFlags(c: Config, videoDir: Option<string>, stamp: string)
    requires PureOtg(c)
    ensures ScrcpyArgv(c, videoDir, stamp) == Selector(c) + [CodecFlag(c)] + OtgFlags(c)
    ensures NetworkId(DeviceOf(c)) ==> OtgFlags(c) == ["--no-video", "--no-audio", "--keyboard=uhid", "--mouse=uhid"]
    ensures !NetworkId(DeviceOf(c)) ==> OtgFlags(c) == ["--otg"]
  {
  }

  /** The fields that a pure OTG session ignores. */
  predicate SessionOnlyField(f: Field) {
    f == Bitrate || f == Fps || f == Record || f == RecordPath || f == Rotation || f == Res
    || f == StayAwake || f == TurnOff || f == AudioEnabled || f == AlwaysOnTop || f == Fullscreen
    || f == Borderless || f == CameraFacing || f == CameraId || f == CameraAr || f == CameraHighSpeed
    || f == VdWidth || f == VdHeight || f == VdDpi
  }

  /** Two configurations whose flag groups agree give the same vector. */
  lemma ArgvCongruence(c1: Config, c2: Config, videoDir: Option<string>, stamp: string)
    requires Selector(c1) == Selector(c2) && CodecFlag(c1) == CodecFlag(c2) && PureOtg(c1) == PureOtg(c2)
    requires PureOtg(c1) ==> OtgFlags(c1) == OtgFlags(c2)
    requires !PureOtg(c1) ==> (LeadingFlags(c1) == LeadingFlags(c2) && FpsFlags(c1) == FpsFlags(c2)
      && TrailingFlags(c1, videoDir, stamp) == TrailingFlags(c2, videoDir, stamp))
    ensures ScrcpyArgv(c1, videoDir, stamp) == ScrcpyArgv(c2, videoDir, stamp)
  {
  }

  /** The trailing flags read only the size, the recording switch and path, and the device. */
  lemma TrailingCongruence(c1: Config, c2: Config, videoDir: Option<string>, stamp: string)
    requires IfNotZero(c1, Res, "--max-size") == IfNotZero(c2, Res, "--max-size")
    requires BoolOf(c1, Record) == BoolOf(c2, Record)
    requires StrOf(c1, RecordPath) == StrOf(c2, RecordPath) && DeviceOf(c1) == DeviceOf(c2)
    ensures TrailingFlags(c1, videoDir, stamp) == TrailingFlags(c2, videoDir, stamp)
  {
  }

  /** The camera flags read only the camera settings. */
  lemma CameraCongruence(c1: Config, c2: Config)
    requires StrOf(c1, CameraId) == StrOf(c2, CameraId) && StrOf(c1, CameraFacing) == StrOf(c2, CameraFacing)
    requires StrOf(c1, CameraAr) == StrOf(c2, CameraAr) && BoolOf(c1, CameraHighSpeed) == BoolOf(c2, CameraHighSpeed)
    ensures CameraFlags(c1) == CameraFlags(c2)
  {
    assert FacingFlags(c1) == FacingFlags(c2);
    assert CameraSelect(c1) == CameraSelect(c2);
  }

  /** The mode flags read the mode and only the settings of that mode. */
  lemma ModeCongruence(c1: Config, c2: Config)
    requires ModeOf(c1) == ModeOf(c2)
    requires ModeOf(c1) == "camera" ==> CameraFlags(c1) == CameraFlags(c2)
    requires ModeOf(c1) == "desktop" ==> (NumOf(c1, VdWidth) == NumOf(c2, VdWidth)
      && NumOf(c1, VdHeight) == NumOf(c2, VdHeight) && NumOf(c1, VdDpi) == NumOf(c2, VdDpi))
    requires BoolOf(c1, OtgEnabled) == BoolOf(c2, OtgEnabled)
    ensures ModeFlags(c1) == ModeFlags(c2)
  {
    if ModeOf(c1) == "desktop" {
      assert NewDisplay(c1) == NewDisplay(c2);
    }
  }

  /** The leading flags read the rate, window, orientation, control and mode settings. */
  lemma LeadingCongruence(c1: Config, c2: Config)
    requires NumOf(c1, Bitrate) == NumOf(c2, Bitrate)
    requires IfNotZero(c1, Rotation, "--orientation") == IfNotZero(c2, Rotation, "--orientation")
    requires BoolOf(c1, AudioEnabled) == BoolOf(c2, AudioEnabled) && BoolOf(c1, AlwaysOnTop) == BoolOf(c2, AlwaysOnTop)
    requires BoolOf(c1, Fullscreen) == BoolOf(c2, Fullscreen) && BoolOf(c1, Borderless) == BoolOf(c2, Borderless)
    requires ModeOf(c1) == ModeOf(c2) && ModeFlags(c1) == ModeFlags(c2)
    requires ModeOf(c1) != "camera" ==> (BoolOf(c1, StayAwake) == BoolOf(c2, StayAwake)
      && BoolOf(c1, TurnOff) == BoolOf(c2, TurnOff))
    ensures LeadingFlags(c1) == LeadingFlags(c2)
  {
    assert RateFlags(c1) == RateFlags(c2);
    assert WindowFlags(c1) == WindowFlags(c2);
    assert ControlFlags(c1) == ControlFlags(c2);
  }

  /** The frame-rate flags read the rate, the mode and the high-speed switch. */
  lemma FpsCongruence(c1: Config, c2: Config)
    requires NumOf(c1, Fps) == NumOf(c2, Fps) && ModeOf(c1) == ModeOf(c2)
    requires BoolOf(c1, CameraHighSpeed) == BoolOf(c2, CameraHighSpeed)
    ensures FpsFlags(c1) == FpsFlags(c2)
  {
  }

  /** `c1` and `c2` hold the same value, or none, for every field in `fs`. */
  predicate AgreeOn(c1: Config, c2: Config, fs: set<Field>) {
    forall g :: g in fs ==> StrOf(c1, g) == StrOf(c2, g) && NumOf(c1, g) == NumOf(c2, g) && BoolOf(c1, g) == BoolOf(c2, g)
  }

  /** The fields every session vector reads directly. */
  function SessionFields(): set<Field> {
    {Device, SessionMode, Codec, OtgEnabled, Bitrate, AudioEnabled, AlwaysOnTop, Fullscreen, Borderless,
     Fps, CameraHighSpeed, Record, RecordPath}
  }

  /**
   * A session vector reads the fields above, the orientation and size flags,
   * the mode flags and, outside camera sessions, the control switches.
   */
  predicate SessionInputsAgree(c1: Config, c2: Config) {
    AgreeOn(c1, c2, SessionFields()) && PureOtg(c1) == PureOtg(c2)
    && IfNotZero(c1, Rotation, "--orientation") == IfNotZero(c2, Rotation, "--orientation")
    && IfNotZero(c1, Res, "--max-size") == IfNotZero(c2, Res, "--max-size")
    && ModeFlags(c1) == ModeFlags(c2)
    && (ModeOf(c1) != "camera" ==> (BoolOf(c1, StayAwake) == BoolOf(c2, StayAwake)
      && BoolOf(c1, TurnOff) == BoolOf(c2, TurnOff)))
  }

  lemma SessionCongruence(c1: Config, c2: Config, videoDir: Option<string>, stamp: string)
    requires SessionInputsAgree(c1, c2)
    ensures ScrcpyArgv(c1, videoDir, stamp) == ScrcpyArgv(c2, videoDir, stamp)
  {
    var fs := SessionFields();
    assert Device in fs && SessionMode in fs && Codec in fs && OtgEnabled in fs;
    assert StrOf(c1, Device) == StrOf(c2, Device) && StrOf(c1, SessionMode) == StrOf(c2, SessionMode);
    assert DeviceOf(c1) == DeviceOf(c2) && ModeOf(c1) == ModeOf(c2);
    assert StrOf(c1, Codec) == StrOf(c2, Codec) && CodecFlag(c1) == CodecFlag(c2);
    assert BoolOf(c1, OtgEnabled) == BoolOf(c2, OtgEnabled) && OtgFlags(c1) == OtgFlags(c2);
    assert Bitrate in fs && AudioEnabled in fs && AlwaysOnTop in fs && Fullscreen in fs && Borderless in fs;
    LeadingCongruence(c1, c2);
    assert Fps in fs && CameraHighSpeed in fs;
    FpsCongruence(c1, c2);
    assert Record in fs && RecordPath in fs;
    TrailingCongruence(c1, c2, videoDir, stamp);
    ArgvCongruence(c1, c2, videoDir, stamp);
  }

  /** Every field other than `f` is the same after `Set(c, f, v)` or `Unset(c, f)`. */
  lemma SetAgrees(c: Config, f: Field, v: Value, fs: set<Field>)
    requires Fits(f, v) && f !in fs
    ensures AgreeOn(Set(c, f, v), c, fs)
  {
    SetFrame(c, f, v);
  }

  /** A camera session's mode flags read only the camera fields. */
  function CameraFields(): set<Field> {
    {SessionMode, CameraId, CameraFacing, CameraAr, CameraHighSpeed, OtgEnabled}
  }

  lemma CameraModeCongruence(c1: Config, c2: Config)
    requires ModeOf(c1) == "camera" && AgreeOn(c1, c2, CameraFields())
    ensures ModeFlags(c1) == ModeFlags(c2)
  {
    var fs := CameraFields();
    assert SessionMode in fs && CameraId in fs && CameraFacing in fs && CameraAr in fs && CameraHighSpeed in fs;
    assert OtgEnabled in fs;
    assert StrOf(c1, SessionMode) == StrOf(c2, SessionMode);
    CameraCongruence(c1, c2);
    ModeCongruence(c1, c2);
  }

  /** In pure OTG no bitrate, fps, recording, window or camera setting changes the vector. */
  lemma PureOtgIgnoresSessionSettings(c: Config, f: Field, v: Value, videoDir: Option<string>, stamp: string)
    requires PureOtg(c) && SessionOnlyField(f) && Fits(f, v)
    ensures ScrcpyArgv(Set(c, f, v), videoDir, stamp) == ScrcpyArgv(c, videoDir, stamp)
  {
    PureOtgAgreement(c, f, v);
    ArgvCongruence(Set(c, f, v), c, videoDir, stamp);
  }

  lemma SessionOnlyOutside(f: Field)
    requires SessionOnlyField(f)
    ensures f != Device && f != SessionMode && f != OtgEnabled && f != OtgPure && f != Codec
  {
  }

  /** The selector and the OTG flags read only the device id. */
  lemma DeviceFlagsCongruence(c1: Config, c2: Config)
    requires DeviceOf(c1) == DeviceOf(c2)
    ensures Selector(c1) == Selector(c2) && OtgFlags(c1) == OtgFlags(c2)
  {
  }

  /** An optional non-zero flag reads only its own field. */
  lemma IfNotZeroCongruence(c1: Config, c2: Config, f: Field, flag: string)
    requires StrOf(c1, f) == StrOf(c2, f)
    ensures IfNotZero(c1, f, flag) == IfNotZero(c2, f, flag)
  {
  }

  /** The pure-OTG test reads only the mode and the two OTG switches. */
  lemma PureOtgCongruence(c1: Config, c2: Config)
    requires ModeOf(c1) == ModeOf(c2)
    requires BoolOf(c1, OtgEnabled) == BoolOf(c2, OtgEnabled) && BoolOf(c1, OtgPure) == BoolOf(c2, OtgPure)
    ensures PureOtg(c1) == PureOtg(c2)
  {
  }

  /** A session-only field leaves the selector, the codec and the OTG flags as they were. */
  lemma PureOtgAgreement(c: Config, f: Field, v: Value)
    requires PureOtg(c) && SessionOnlyField(f) && Fits(f, v)
    ensures var c' := Set(c, f, v);
      Selector(c') == Selector(c) && CodecFlag(c') == CodecFlag(c) && PureOtg(c') && OtgFlags(c') == OtgFlags(c)
  {
    var c' := Set(c, f, v);
    SessionOnlyOutside(f);
    SetOther(c, f, v, Device);
    SetOther(c, f, v, SessionMode);
    SetOther(c, f, v, OtgEnabled);
    SetOther(c, f, v, OtgPure);
    SetOther(c, f, v, Codec);
    assert DeviceOf(c') == DeviceOf(c) && ModeOf(c') == ModeOf(c);
    DeviceFlagsCongruence(c', c);
    PureOtgCongruence(c', c);
    assert CodecName(c') == CodecName(c);
  }

  /** Stay-awake and screen-off settings have no effect in a camera session. */
  lemma CameraIgnoresControlSettings(c: Config, b: bool, videoDir: Option<string>, stamp: string)
    requires ModeOf(c) == "camera"
    ensures ScrcpyArgv(Set(c, StayAwake, Bool(b)), videoDir, stamp) == ScrcpyArgv(c, videoDir, stamp)
    ensures ScrcpyArgv(Set(c, TurnOff, Bool(b)), videoDir, stamp) == ScrcpyArgv(c, videoDir, stamp)
  {
    CameraSettingUnused(c, StayAwake, Bool(b), videoDir, stamp);
    CameraSettingUnused(c, TurnOff, Bool(b), videoDir, stamp);
  }

  /** The fields a camera session never reads. */
  predicate CameraUnused(f: Field) {
    f == StayAwake || f == TurnOff || f == VdWidth || f == VdHeight || f == VdDpi || f == OtgPure
  }

  lemma CameraSettingUnused(c: Config, f: Field, v: Value, videoDir: Option<string>, stamp: string)
    requires ModeOf(c) == "camera" && CameraUnused(f) && Fits(f, v)
    ensures ScrcpyArgv(Set(c, f, v), videoDir, stamp) == ScrcpyArgv(c, videoDir, stamp)
  {
    CameraUnusedAgreement(c, f, v);
    SessionCongruence(Set(c, f, v), c, videoDir, stamp);
  }

  lemma CameraUnusedOutside(f: Field)
    requires CameraUnused(f)
    ensures f !in SessionFields() && f !in CameraFields()
    ensures f != SessionMode && f != OtgEnabled && f != Rotation && f != Res
  {
  }

  lemma CameraUnusedAgreement(c: Config, f: Field, v: Value)
    requires ModeOf(c) == "camera" && CameraUnused(f) && Fits(f, v)
    ensures SessionInputsAgree(Set(c, f, v), c)
  {
    CameraUnusedOutside(f);
    SetAgrees(c, f, v, SessionFields());
    SetKeepsFrame(c, f, v);
    SetAgrees(c, f, v, CameraFields());
    CameraModeCongruence(Set(c, f, v), c);
  }

  /**
   * Setting a field other than the mode, the OTG switch, the orientation and
   * the size keeps the mode, the pure-OTG test and the orientation and size
   * flags (outside mirror mode, the pure-OTG switch included).
   */
  lemma SetKeepsFrame(c: Config, f: Field, v: Value)
    requires Fits(f, v) && f != SessionMode && f != OtgEnabled && f != Rotation && f != Res
    requires f == OtgPure ==> ModeOf(c) != "mirror"
    ensures var c' := Set(c, f, v);
      ModeOf(c') == ModeOf(c) && PureOtg(c') == PureOtg(c)
      && IfNotZero(c', Rotation, "--orientation") == IfNotZero(c, Rotation, "--orientation")
      && IfNotZero(c', Res, "--max-size") == IfNotZero(c, Res, "--max-size")
  {
    var c' := Set(c, f, v);
    SetOther(c, f, v, SessionMode);
    SetOther(c, f, v, OtgEnabled);
    SetOther(c, f, v, Rotation);
    SetOther(c, f, v, Res);
    IfNotZeroCongruence(c', c, Rotation, "--orientation");
    IfNotZeroCongruence(c', c, Res, "--max-size");
    assert ModeOf(c') == ModeOf(c);
    if f != OtgPure {
      SetOther(c, f, v, OtgPure);
      PureOtgCongruence(c', c);
    }
  }

  /** A non-empty camera id wins: the facing setting is then ignored. */
  lemma CameraIdWinsOverFacing(c: Config, facing: string, videoDir: Option<string>, stamp: string)
    requires ModeOf(c) == "camera"
    requires StrOf(c, CameraId).Some? && StrOf(c, CameraId).value != ""
    ensures "--camera-id=" + StrOf(c, CameraId).value in ScrcpyArgv(c, videoDir, stamp)
    ensures ScrcpyArgv(Set(c, CameraFacing, Str(facing)), videoDir, stamp) == ScrcpyArgv(c, videoDir, stamp)
  {
    FacingAgreement(c, facing);
    SessionCongruence(Set(c, CameraFacing, Str(facing)), c, videoDir, stamp);
    CameraIdPresent(c, videoDir, stamp);
  }

  lemma FacingAgreement(c: Config, facing: string)
    requires ModeOf(c) == "camera"
    requires StrOf(c, CameraId).Some? && StrOf(c, CameraId).value != ""
    ensures SessionInputsAgree(Set(c, CameraFacing, Str(facing)), c)
  {
    SetAgrees(c, CameraFacing, Str(facing), SessionFields());
    SetKeepsFrame(c, CameraFacing, Str(facing));
    FacingKeepsModeFlags(c, facing);
  }

  lemma FacingKeepsModeFlags(c: Config, facing: string)
    requires ModeOf(c) == "camera"
    requires StrOf(c, CameraId).Some? && StrOf(c, CameraId).value != ""
    ensures ModeFlags(Set(c, CameraFacing, Str(facing))) == ModeFlags(c)
  {
    var c' := Set(c, CameraFacing, Str(facing));
    SetFrame(c, CameraFacing, Str(facing));
    assert StrOf(c', SessionMode) == StrOf(c, SessionMode) && StrOf(c', CameraId) == StrOf(c, CameraId);
    assert StrOf(c', CameraAr) == StrOf(c, CameraAr) && BoolOf(c', CameraHighSpeed) == BoolOf(c, CameraHighSpeed);
    assert CameraSelect(c') == CameraSelect(c);
    assert CameraFlags(c') == CameraFlags(c);
  }

  /** With a non-empty camera id, `--camera-id=<id>` is in the vector. */
  lemma CameraIdPresent(c: Config, videoDir: Option<string>, stamp: string)
    requires ModeOf(c) == "camera"
    requires StrOf(c, CameraId).Some? && StrOf(c, CameraId).value != ""
    ensures "--camera-id=" + StrOf(c, CameraId).value in ScrcpyArgv(c, videoDir, stamp)
  {
    var x := "--camera-id=" + StrOf(c, CameraId).value;
    assert x in CameraSelect(c);
    assert x in CameraFlags(c);
    assert x in LeadingFlags(c);
    assert x in SessionFlags(c, videoDir, stamp);
  }

  /** `w` occurs as a contiguous run of a. */
  ghost predicate Infix(w: seq<string>, a: seq<string>) {
    exists i :: InfixAt(w, a, i)
  }

  predicate InfixAt(w: seq<string>, a: seq<string>, i: int) {
    0 <= i <= |a| - |w| && a[i..i + |w|] == w
  }

  /** Where the frame-rate flags sit in a session vector. */
  lemma FpsPosition(c: Config, videoDir: Option<string>, stamp: string)
    requires !PureOtg(c)
    ensures Infix(FpsFlags(c), ScrcpyArgv(c, videoDir, stamp))
  {
    var pre := Selector(c) + [CodecFlag(c)] + LeadingFlags(c);
    var a := ScrcpyArgv(c, videoDir, stamp);
    assert a == Selector(c) + [CodecFlag(c)] + (LeadingFlags(c) + FpsFlags(c) + TrailingFlags(c, videoDir, stamp));
    InfixMiddle(Selector(c) + [CodecFlag(c)], LeadingFlags(c), FpsFlags(c), TrailingFlags(c, videoDir, stamp));
  }

  /** The middle piece of a concatenation occurs in it. */
  lemma InfixMiddle(p: seq<string>, q: seq<string>, w: seq<string>, r: seq<string>)
    ensures InfixAt(w, p + (q + w + r), |p| + |q|)
  {
    var a := p + (q + w + r);
    assert a == (p + q) + w + r;
    assert a[|p| + |q|..|p| + |q| + |w|] == w;
  }

  /**
   * The frame rate goes under `--camera-fps` in camera sessions and under
   * `--max-fps` otherwise; a high-speed camera without a rate asks for 60.
   */
  lemma FpsFlagByMode(c: Config, videoDir: Option<string>, stamp: string)
    requires !PureOtg(c)
    ensures NumOf(c, Fps).Some? && ModeOf(c) == "camera" ==>
      Infix(["--camera-fps", NatToString(NumOf(c, Fps).value)], ScrcpyArgv(c, videoDir, stamp))
    ensures NumOf(c, Fps).Some? && ModeOf(c) != "camera" ==>
      Infix(["--max-fps", NatToString(NumOf(c, Fps).value)], ScrcpyArgv(c, videoDir, stamp))
    ensures NumOf(c, Fps).None? && ModeOf(c) == "camera" && BoolOf(c, CameraHighSpeed) == Some(true) ==>
      Infix(["--camera-fps", "60"], ScrcpyArgv(c, videoDir, stamp))
  {
    FpsPosition(c, videoDir, stamp);
  }

  /** A virtual display without a configured size is 1920x1080 at 420 dpi. */
  lemma DesktopDefaults(c: Config)
    requires ModeOf(c) == "desktop" && VdWidth !in c && VdHeight !in c && VdDpi !in c
    ensures ModeFlags(c) == ["--new-display=" + "1920" + "x" + "1080" + "/" + "420", "--video-buffer=100"]
  {
    assert NumOf(c, VdWidth) == None && NumOf(c, VdHeight) == None && NumOf(c, VdDpi) == None;
    DefaultSizeDigits();
    assert NewDisplay(c) == "--new-display=" + "1920" + "x" + "1080" + "/" + "420";
  }

  /** The decimal renderings of the default virtual display size. */
  lemma DefaultSizeDigits()
    ensures NatToString(1920) == "1920" && NatToString(1080) == "1080" && NatToString(420) == "420"
  {
    WidthDigits();
    HeightDigits();
    DpiDigits();
  }

  lemma WidthDigits()
    ensures NatToString(1920) == "1920"
  {
    assert NatToString(1) == "1";
    assert NatToString(19) == "19";
    assert NatToString(192) == "192";
  }

  lemma HeightDigits()
    ensures NatToString(1080) == "1080"
  {
    assert NatToString(10) == "10";
    assert NatToString(108) == "108";
  }

  lemma DpiDigits()
    ensures NatToString(420) == "420"
  {
    assert NatToString(42) == "42";
  }

  /** A rotation or size of "0" is the same as none at all. */
  lemma ZeroMeansUnset(c: Config, f: Field, videoDir: Option<string>, stamp: string)
    requires f == Rotation || f == Res
    ensures ScrcpyArgv(Set(c, f, Str("0")), videoDir, stamp) == ScrcpyArgv(Unset(c, f), videoDir, stamp)
  {
    ZeroAgrees(c, f, AllButSizes());
    FullCongruence(Set(c, f, Str("0")), Unset(c, f), videoDir, stamp);
  }

  /** Every field but the orientation and the size. */
  function AllButSizes(): set<Field> {
    SessionFields() + CameraFields() + {StayAwake, TurnOff, VdWidth, VdHeight, VdDpi, OtgPure}
  }

  /** Configurations that agree on every field and on the orientation and size flags give the same vector. */
  lemma FullCongruence(c1: Config, c2: Config, videoDir: Option<string>, stamp: string)
    requires AgreeOn(c1, c2, AllButSizes())
    requires IfNotZero(c1, Rotation, "--orientation") == IfNotZero(c2, Rotation, "--orientation")
    requires IfNotZero(c1, Res, "--max-size") == IfNotZero(c2, Res, "--max-size")
    ensures ScrcpyArgv(c1, videoDir, stamp) == ScrcpyArgv(c2, videoDir, stamp)
  {
    FullAgreement(c1, c2);
    SessionCongruence(c1, c2, videoDir, stamp);
  }

  lemma FullAgreement(c1: Config, c2: Config)
    requires AgreeOn(c1, c2, AllButSizes())
    requires IfNotZero(c1, Rotation, "--orientation") == IfNotZero(c2, Rotation, "--orientation")
    requires IfNotZero(c1, Res, "--max-size") == IfNotZero(c2, Res, "--max-size")
    ensures SessionInputsAgree(c1, c2)
  {
    var fs := AllButSizes();
    assert AgreeOn(c1, c2, CameraFields() + {VdWidth, VdHeight, VdDpi});
    ModeAgree(c1, c2);
    assert AgreeOn(c1, c2, SessionFields());
    assert StayAwake in fs && TurnOff in fs && OtgPure in fs && SessionMode in fs && OtgEnabled in fs;
    assert StrOf(c1, SessionMode) == StrOf(c2, SessionMode);
    assert PureOtg(c1) == PureOtg(c2);
  }

  /** A size or orientation of "0" and none at all differ in nothing the vector reads. */
  lemma ZeroAgrees(c: Config, f: Field, fs: set<Field>)
    requires (f == Rotation || f == Res) && f !in fs
    ensures AgreeOn(Set(c, f, Str("0")), Unset(c, f), fs)
    ensures IfNotZero(Set(c, f, Str("0")), Rotation, "--orientation") == IfNotZero(Unset(c, f), Rotation, "--orientation")
    ensures IfNotZero(Set(c, f, Str("0")), Res, "--max-size") == IfNotZero(Unset(c, f), Res, "--max-size")
  {
    var c1 := Set(c, f, Str("0"));
    var c2 := Unset(c, f);
    SetAgrees(c, f, Str("0"), fs + {Rotation, Res} - {f});
    UnsetAgrees(c, f, fs + {Rotation, Res} - {f});
    AgreeTrans(c1, c, c2, fs + {Rotation, Res} - {f});
    assert StrOf(c1, f) == Some("0") && StrOf(c2, f) == None;
    var g := if f == Rotation then Res else Rotation;
    assert g in fs + {Rotation, Res} - {f};
    assert StrOf(c1, g) == StrOf(c2, g);
  }

  /** Every field other than `f` is the same after `Unset(c, f)`. */
  lemma UnsetAgrees(c: Config, f: Field, fs: set<Field>)
    requires f != Device && f != SessionMode && f !in fs
    ensures AgreeOn(Unset(c, f), c, fs)
  {
    UnsetFrame(c, f);
  }

  lemma AgreeTrans(c1: Config, c: Config, c2: Config, fs: set<Field>)
    requires AgreeOn(c1, c, fs) && AgreeOn(c2, c, fs)
    ensures AgreeOn(c1, c2, fs)
  {
  }

  /** Configurations that agree on every field a mode reads have the same mode flags. */
  lemma ModeAgree(c1: Config, c2: Config)
    requires AgreeOn(c1, c2, CameraFields() + {VdWidth, VdHeight, VdDpi})
    ensures ModeFlags(c1) == ModeFlags(c2)
  {
    var fs := CameraFields() + {VdWidth, VdHeight, VdDpi};
    assert SessionMode in fs && CameraId in fs && CameraFacing in fs && CameraAr in fs && CameraHighSpeed in fs;
    assert OtgEnabled in fs && VdWidth in fs && VdHeight in fs && VdDpi in fs;
    assert StrOf(c1, SessionMode) == StrOf(c2, SessionMode);
    CameraCongruence(c1, c2);
    ModeCongruence(c1, c2);
  }

  /** The recording file name carries no ':' from the device id. */
  lemma RecordFileHasNoColon(c: Config, stamp: string)
    requires ':' !in stamp
    ensures ':' !in RecordFile(DeviceOf(c), stamp)
  {
    var d := ReplaceChar(DeviceOf(c), ':', '-');
    assert ':' !in d;
  }

  // ---------------------------------------------------------------------
  // The unit tests of build_scrcpy_args
  // ---------------------------------------------------------------------

  /** Mirror mode with only a device: `-s device1` and the h264 codec. */
  lemma MirrorDefaultsTest(videoDir: Option<string>, stamp: string)
    ensures var c: Config := map[Device := Str("device1"), SessionMode := Str("mirror")];
      var a := ScrcpyArgv(c, videoDir, stamp);
      "-s" in a && "device1" in a && "--video-codec=h264" in a
  {
    var c: Config := map[Device := Str("device1"), SessionMode := Str("mirror")];
    assert DeviceOf(c) == "device1" && Codec !in c && StrOf(c, Codec) == None;
    assert Selector(c) == ["-s", "device1"];
    assert CodecFlag(c) == "--video-codec=" + "h264" == "--video-codec=h264";
    var a := ScrcpyArgv(c, videoDir, stamp);
    assert a[0] == "-s" && a[1] == "device1" && a[2] == "--video-codec=h264";
  }

  /** Camera mode at 30 fps facing front. */
  lemma CameraModeTest(videoDir: Option<string>, stamp: string)
    ensures var c: Config := map[Device := Str("device1"), SessionMode := Str("camera"), Fps := Num(30),
        CameraFacing := Str("front")];
      var a := ScrcpyArgv(c, videoDir, stamp);
      "--video-source=camera" in a && "--camera-facing=front" in a && "--camera-fps" in a && "30" in a
  {
    var c: Config := map[Device := Str("device1"), SessionMode := Str("camera"), Fps := Num(30),
      CameraFacing := Str("front")];
    assert NatToString(30) == "30";
    assert ModeOf(c) == "camera" && !PureOtg(c);
    assert CameraId !in c && CameraFacing in c && c[CameraFacing] == Str("front") && Fps in c && c[Fps] == Num(30);
    assert StrOf(c, CameraId) == None && StrOf(c, CameraFacing) == Some("front") && NumOf(c, Fps) == Some(30);
    assert "--camera-facing=" + "front" == "--camera-facing=front";
    assert FacingFlags(c) == ["--camera-facing=front"];
    assert CameraSelect(c) == ["--camera-facing=front"];
    assert "--video-source=camera" in CameraFlags(c) && "--camera-facing=front" in CameraFlags(c);
    assert "--video-source=camera" in LeadingFlags(c) && "--camera-facing=front" in LeadingFlags(c);
    assert FpsFlags(c) == ["--camera-fps", "30"];
    SessionMembers(c, videoDir, stamp);
  }

  /** Every leading and frame-rate flag of a session is in the vector. */
  lemma SessionMembers(c: Config, videoDir: Option<string>, stamp: string)
    requires !PureOtg(c)
    ensures forall x :: x in LeadingFlags(c) ==> x in ScrcpyArgv(c, videoDir, stamp)
    ensures forall x :: x in FpsFlags(c) ==> x in ScrcpyArgv(c, videoDir, stamp)
  {
  }

  /** Mirror mode with bitrate 8 and 60 fps. */
  lemma BitrateAndFpsTest(videoDir: Option<string>, stamp: string)
    ensures var c: Config := map[Device := Str("device1"), SessionMode := Str("mirror"), Bitrate := Num(8), Fps := Num(60)];
      var a := ScrcpyArgv(c, videoDir, stamp);
      "--video-bit-rate" in a && "8M" in a && "--max-fps" in a && "60" in a
  {
    var c: Config := map[Device := Str("device1"), SessionMode := Str("mirror"), Bitrate := Num(8), Fps := Num(60)];
    assert NatToString(8) == "8" && NatToString(60) == "60";
    assert ModeOf(c) == "mirror" && OtgEnabled !in c && !PureOtg(c);
    assert Bitrate in c && c[Bitrate] == Num(8) && Fps in c && c[Fps] == Num(60);
    assert NumOf(c, Bitrate) == Some(8) && NumOf(c, Fps) == Some(60);
    assert NatToString(8) + "M" == "8M";
    assert RateFlags(c) == ["--video-bit-rate", "8M"];
    assert "--video-bit-rate" in LeadingFlags(c) && "8M" in LeadingFlags(c);
    assert FpsFlags(c) == ["--max-fps", "60"];
    SessionMembers(c, videoDir, stamp);
  }
}
