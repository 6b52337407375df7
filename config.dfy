/**
 * The session configuration (`ScrcpyConfig`). The source treats it as a
 * JavaScript object: an edit is `{ ...config, [field]: value }` and loading
 * a saved blob is `{ ...prev, ...parsed }`. Both are map operations here; an
 * optional field that is `undefined` is a key that is absent.
 */
module Config {
  import opened Wrappers

  datatype Field =
    | Device | SessionMode | Bitrate | Fps | StayAwake | TurnOff | AudioEnabled
    | AlwaysOnTop | Fullscreen | Borderless | Record | RecordPath | ScrcpyPath
    | OtgEnabled | OtgPure | CameraFacing | CameraId | Codec | CameraAr
    | CameraHighSpeed | VdWidth | VdHeight | VdDpi | Rotation | Res | AspectRatioLock

  datatype Value = Str(s: string) | Num(n: nat) | Bool(b: bool)

  /** The declared type of each field of the interface. */
  predicate Fits(f: Field, v: Value) {
    match f
    case Device | SessionMode | RecordPath | ScrcpyPath | CameraFacing | CameraId
      | Codec | CameraAr | Rotation | Res => v.Str?
    case Bitrate | Fps | VdWidth | VdHeight | VdDpi => v.Num?
    case StayAwake | TurnOff | AudioEnabled | AlwaysOnTop | Fullscreen | Borderless
      | Record | OtgEnabled | OtgPure | CameraHighSpeed | AspectRatioLock => v.Bool?
  }

  /** `device` and `sessionMode` are required; every present field has its declared type. */
  predicate WellFormed(m: map<Field, Value>) {
    Device in m && SessionMode in m && forall f :: f in m ==> Fits(f, m[f])
  }

  type Config = m: map<Field, Value> | WellFormed(m)
    witness map[Device := Str(""), SessionMode := Str("mirror")]

  /** The fields `useScrcpy` starts from (useScrcpy.ts:50-65). */
  function DefaultFields(): map<Field, Value> {
    map[Device := Str(""), SessionMode := Str("mirror"), Bitrate := Num(8), Fps := Num(60),
        StayAwake := Bool(false), TurnOff := Bool(false), AudioEnabled := Bool(true),
        AlwaysOnTop := Bool(false), Res := Str("0"), RecordPath := Str(""),
        VdWidth := Num(1920), VdHeight := Num(1080), VdDpi := Num(420),
        AspectRatioLock := Bool(true)]
  }

  lemma DefaultFieldsWellFormed()
    ensures WellFormed(DefaultFields())
  {
    var m := DefaultFields();
    forall f | f in m
      ensures Fits(f, m[f])
    {
      assert m[f].Str? <==> f in {Device, SessionMode, Res, RecordPath};
      assert m[f].Num? <==> f in {Bitrate, Fps, VdWidth, VdHeight, VdDpi};
    }
  }

  /** The initial state of the hook's configuration. */
  function Defaults(): (c: Config)
    ensures c[Device] == Str("") && c[SessionMode] == Str("mirror")
    ensures ScrcpyPath !in c && Record !in c && OtgEnabled !in c
  {
    DefaultFieldsWellFormed();
    DefaultFields()
  }

  /** JavaScript truthiness of a field: present and not false, 0 or "". */
  predicate Truthy(c: Config, f: Field) {
    f in c && TruthyValue(c[f])
  }

  /** JavaScript truthiness of one value: not false, 0 or "". */
  predicate TruthyValue(v: Value) {
    match v
    case Str(s) => s != ""
    case Num(n) => n != 0
    case Bool(b) => b
  }

  function DeviceOf(c: Config): string { c[Device].s }

  function ModeOf(c: Config): string { c[SessionMode].s }

  function StrOf(c: Config, f: Field): Option<string> {
    if f in c && c[f].Str? then Some(c[f].s) else None
  }

  function NumOf(c: Config, f: Field): Option<nat> {
    if f in c && c[f].Num? then Some(c[f].n) else None
  }

  function BoolOf(c: Config, f: Field): Option<bool> {
    if f in c && c[f].Bool? then Some(c[f].b) else None
  }

  /** `{ ...c, [f]: v }`. */
  function Set(c: Config, f: Field, v: Value): (r: Config)
    requires Fits(f, v)
    ensures f in r && r[f] == v
  {
    c[f := v]
  }

  /** An edit of one field leaves every other field as it was. */
  lemma SetFrame(c: Config, f: Field, v: Value)
    requires Fits(f, v)
    ensures forall g :: g != f ==> (g in Set(c, f, v) <==> g in c) && (g in c ==> Set(c, f, v)[g] == c[g])
    ensures forall g :: g != f ==> (StrOf(Set(c, f, v), g) == StrOf(c, g) && NumOf(Set(c, f, v), g) == NumOf(c, g)
      && BoolOf(Set(c, f, v), g) == BoolOf(c, g))
  {
  }

  /** The same for one field `g`, without a quantifier to instantiate. */
  lemma SetOther(c: Config, f: Field, v: Value, g: Field)
    requires Fits(f, v) && g != f
    ensures StrOf(Set(c, f, v), g) == StrOf(c, g) && NumOf(Set(c, f, v), g) == NumOf(c, g)
    ensures BoolOf(Set(c, f, v), g) == BoolOf(c, g)
  {
    SetFrame(c, f, v);
  }

  /** `{ ...c, [f]: undefined }`, which JSON drops. */
  function Unset(c: Config, f: Field): (r: Config)
    requires f != Device && f != SessionMode
    ensures f !in r
  {
    c - {f}
  }

  /** Removing one field leaves every other field as it was. */
  lemma UnsetFrame(c: Config, f: Field)
    requires f != Device && f != SessionMode
    ensures forall g :: g != f ==> (g in Unset(c, f) <==> g in c) && (g in c ==> Unset(c, f)[g] == c[g])
    ensures forall g :: g != f ==> (StrOf(Unset(c, f), g) == StrOf(c, g) && NumOf(Unset(c, f), g) == NumOf(c, g)
      && BoolOf(Unset(c, f), g) == BoolOf(c, g))
  {
  }

  /**
   * `{ ...prev, ...parsed }`: every saved field of the declared type
   * overrides the current one; every other field keeps its current value,
   * so fields the saved blob predates keep their defaults.
   */
  function Merge(prev: Config, saved: map<Field, Value>): (r: Config)
    ensures forall f :: f in saved && Fits(f, saved[f]) ==> f in r && r[f] == saved[f]
    ensures forall f :: !(f in saved && Fits(f, saved[f])) ==> (f in r <==> f in prev) && (f in prev ==> r[f] == prev[f])
  {
    prev + map f | f in saved && Fits(f, saved[f]) :: saved[f]
  }
}
