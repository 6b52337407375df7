/**
 * The control panel's configuration edits. Every edit builds a new record
 * `{ ...config, ... }` and hands it to `setConfig`, so each is a function
 * from the old configuration to the new one.
 */
module ControlPanel {
  import opened Wrappers
  import opened Config
  import ScrcpyArgs

  /** `handleChange(field, value)`: `{ ...config, [field]: value }`. */
  function HandleChange(c: Config, f: Field, v: Value): (r: Config)
    requires Fits(f, v)
    ensures f in r && r[f] == v
    ensures forall g :: g != f ==> (g in r <==> g in c) && (g in c ==> r[g] == c[g])
  {
    SetFrame(c, f, v);
    Set(c, f, v)
  }

  /**
   * The "HID Input" switch: `otgEnabled` flips (an unset flag counts as
   * off), and switching it off also clears `otgPure`.
   */
  function ToggleOtg(c: Config): (r: Config)
    ensures BoolOf(r, OtgEnabled) == Some(!ScrcpyArgs.OtgOn(c))
    ensures ScrcpyArgs.OtgOn(c) ==> BoolOf(r, OtgPure) == Some(false)
    ensures !ScrcpyArgs.OtgOn(c) ==> (OtgPure in r <==> OtgPure in c) && (OtgPure in c ==> r[OtgPure] == c[OtgPure])
    ensures forall g :: g != OtgEnabled && g != OtgPure ==> (g in r <==> g in c) && (g in c ==> r[g] == c[g])
  {
    var on := !ScrcpyArgs.OtgOn(c);
    var r := Set(c, OtgEnabled, Bool(on));
    SetFrame(c, OtgEnabled, Bool(on));
    if on then r
    else
      SetFrame(r, OtgPure, Bool(false));
      Set(r, OtgPure, Bool(false))
  }

  /** Switching OTG off can never leave a keyboard-and-mouse-only session behind. */
  lemma ToggleOffEndsPureOtg(c: Config)
    requires ScrcpyArgs.OtgOn(c)
    ensures !ScrcpyArgs.PureOtg(ToggleOtg(c))
  {
  }

  /** Switching twice restores the switch when it was set explicitly. */
  lemma ToggleTwiceRestoresSwitch(c: Config)
    requires BoolOf(c, OtgEnabled).Some?
    ensures BoolOf(ToggleOtg(ToggleOtg(c)), OtgEnabled) == BoolOf(c, OtgEnabled)
  {
  }

  datatype Preset = P1080 | P1440 | P4k | Ultrawide

  function PresetName(p: Preset): string {
    match p
    case P1080 => "1080p"
    case P1440 => "1440p"
    case P4k => "4k"
    case Ultrawide => "ultrawide"
  }

  function PresetSize(p: Preset): (nat, nat) {
    match p
    case P1080 => (1920, 1080)
    case P1440 => (2560, 1440)
    case P4k => (3840, 2160)
    case Ultrawide => (2560, 1080)
  }

  /** The virtual display's width and height, when both are set. */
  function Size(c: Config): Option<(nat, nat)> {
    if NumOf(c, VdWidth).Some? && NumOf(c, VdHeight).Some? then Some((NumOf(c, VdWidth).value, NumOf(c, VdHeight).value))
    else None
  }

  /** The label the Quick Presets selector shows for the current dimensions. */
  function PresetLabel(c: Config): (caption: string)
    ensures caption == "custom" <==> forall p: Preset :: Size(c) != Some(PresetSize(p))
  {
    var w := NumOf(c, VdWidth);
    var h := NumOf(c, VdHeight);
    assert PresetSize(P1080) == (1920, 1080) && PresetSize(P1440) == (2560, 1440);
    assert PresetSize(P4k) == (3840, 2160) && PresetSize(Ultrawide) == (2560, 1080);
    if w == Some(1920) && h == Some(1080) then "1080p"
    else if w == Some(2560) && h == Some(1440) then "1440p"
    else if w == Some(3840) && h == Some(2160) then "4k"
    else if w == Some(2560) && h == Some(1080) then "ultrawide"
    else "custom"
  }

  /** The label names a preset exactly when the dimensions are that preset's. */
  lemma PresetLabelIff(c: Config, p: Preset)
    ensures PresetLabel(c) == PresetName(p) <==> Size(c) == Some(PresetSize(p))
  {
  }

  /** The preset a selector value names, if any. */
  function PresetNamed(name: string): (r: Option<Preset>)
    ensures r.Some? ==> PresetName(r.value) == name
  {
    if name == "1080p" then Some(P1080)
    else if name == "1440p" then Some(P1440)
    else if name == "4k" then Some(P4k)
    else if name == "ultrawide" then Some(Ultrawide)
    else None
  }

  /** Every preset's name is recognised as that preset. */
  lemma PresetNamedInverse(p: Preset)
    ensures PresetNamed(PresetName(p)) == Some(p)
  {
  }

  /** Choosing a preset: a known name sets exactly the two dimensions; anything else changes nothing. */
  function ApplyPreset(c: Config, name: string): (r: Config)
    ensures PresetNamed(name).Some? ==> Size(r) == Some(PresetSize(PresetNamed(name).value))
    ensures PresetNamed(name).None? ==> r == c
    ensures forall g :: g != VdWidth && g != VdHeight ==> (g in r <==> g in c) && (g in c ==> r[g] == c[g])
  {
    match PresetNamed(name)
    case Some(p) => Resize(c, PresetSize(p).0, PresetSize(p).1)
    case None => c
  }

  function Resize(c: Config, w: nat, h: nat): (r: Config)
    ensures Size(r) == Some((w, h))
    ensures forall g :: g != VdWidth && g != VdHeight ==> (g in r <==> g in c) && (g in c ==> r[g] == c[g])
  {
    Set(Set(c, VdWidth, Num(w)), VdHeight, Num(h))
  }

  /** Choosing a preset and reading the label back gives the preset's name. */
  lemma {:induction false} PresetRoundTrip(c: Config, p: Preset)
    ensures PresetLabel(ApplyPreset(c, PresetName(p))) == PresetName(p)
  {
    PresetNamedInverse(p);
    PresetLabelIff(ApplyPreset(c, PresetName(p)), p);
  }

  /** Reading the label and choosing it again changes nothing. */
  lemma {:induction false} LabelThenApply(c: Config)
    requires Size(c).Some?
    ensures ApplyPreset(c, PresetLabel(c)) == c
  {
    var w := NumOf(c, VdWidth).value;
    var h := NumOf(c, VdHeight).value;
    var r := ApplyPreset(c, PresetLabel(c));
    assert c[VdWidth] == Num(w) && c[VdHeight] == Num(h);
    assert forall g :: g in r <==> g in c;
  }

  /** The start button's caption for the current session settings. */
  function StartLabel(c: Config): (caption: string)
    ensures caption == "Initialize OTG" <==> ScrcpyArgs.PureOtg(c)
    ensures caption == "Start Mission" <==> ModeOf(c) == "mirror" && !ScrcpyArgs.PureOtg(c)
    ensures caption == "Engage Camera" <==> ModeOf(c) == "camera"
    ensures caption == "Eject to Desktop" <==> ModeOf(c) != "mirror" && ModeOf(c) != "camera"
  {
    if ModeOf(c) == "mirror" then
      (if ScrcpyArgs.OtgOn(c) && BoolOf(c, OtgPure).GetOr(false) then "Initialize OTG" else "Start Mission")
    else if ModeOf(c) == "camera" then "Engage Camera"
    else "Eject to Desktop"
  }
}
