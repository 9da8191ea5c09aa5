/** The editor's side panel (`UIManager`): undo/redo button enablement, the
    dirty-marking listeners of the world and inspector controls, restoring the
    controls from a saved project, and the skybox mode fallback. The page's elements
    are a map from element id to the value it shows; the renderer objects the
    listeners write to are a type parameter. */
module UI {
  import opened Wrappers
  import opened Text
  import History

  /** The `disabled` state of the undo and redo buttons. */
  datatype Buttons = Buttons(undoDisabled: bool, redoDisabled: bool)

  /** `updateUndoRedoButtons()`: nothing when either button is missing from the page;
      otherwise each is disabled exactly when its stack is empty. */
  function UpdateButtons(b: Option<Buttons>, h: History.History): (r: Option<Buttons>)
    ensures b.None? ==> r.None?
    ensures b.Some? ==> (r.Some? && (r.value.undoDisabled <==> |h.undoStack| == 0)
                         && (r.value.redoDisabled <==> |h.redoStack| == 0))
  {
    match b
    case None => None
    case Some(_) => Some(Buttons(|h.undoStack| == 0, |h.redoStack| == 0))
  }

  /** After any recorded edit, undo is available and redo is not. */
  lemma ButtonsAfterEdit(b: Buttons, h: History.History, a: History.Action)
    ensures UpdateButtons(Some(b), History.AddHistory(h, a)) == Some(Buttons(false, true))
  {
  }

  /** After an undo of a non-empty history, redo is available. */
  lemma ButtonsAfterUndo(b: Buttons, h: History.History)
    requires |h.undoStack| > 0
    ensures UpdateButtons(Some(b), History.Undo(h).history).value.redoDisabled == false
  {
  }

  /** A world-control listener (sun, lighting, fog, bloom, post-processing, clouds):
      apply the edit, then mark the project dirty. */
  function WorldEdit<W>(w: W, edit: W -> W, h: History.History): (r: (W, History.History))
    ensures r.0 == edit(w) && r.1.isDirty
    ensures r.1.undoStack == h.undoStack && r.1.redoStack == h.redoStack
  {
    (edit(w), h.(isDirty := true))
  }

  /** An inspector listener (light colour, intensity, shadow): only with a selection
      does it apply the edit and mark the project dirty. */
  function InspectorEdit<W>(w: W, selected: Option<nat>, edit: W -> W, h: History.History): (r: (W, History.History))
    ensures selected.None? ==> r == (w, h)
    ensures selected.Some? ==> r == WorldEdit(w, edit, h)
  {
    if selected.Some? then WorldEdit(w, edit, h) else (w, h)
  }

  /** Neither kind of listener touches the undo history: edits in the panel cannot be
      undone. */
  lemma PanelEditsNotUndoable<W>(w: W, selected: Option<nat>, edit: W -> W, h: History.History)
    ensures InspectorEdit(w, selected, edit, h).1.undoStack == h.undoStack
    ensures InspectorEdit(w, selected, edit, h).1.redoStack == h.redoStack
  {
  }

  // ---------------------------------------------------------------------------
  // Colours

  function Pow16(k: nat): (r: nat)
    ensures r >= 1
  {
    if k == 0 then 1 else 16 * Pow16(k - 1)
  }

  /** `'#' + n.toString(16).padStart(6, '0')`, as a colour input shows a colour. */
  function HexColor(n: nat): (r: string)
    ensures |r| >= 7 && r[0] == '#'
    ensures n < 0x1000000 ==> |r| == 7
    ensures ParseBase(r[1..], 16) == n
  {
    var r := "#" + PadStart(NatToHex(n), 6, '0');
    assert r[1..] == PadStart(NatToHex(n), 6, '0');
    PaddedHexRoundTrip(n, 6);
    ShortHex(n);
    r
  }

  /** Colours below `0x1000000` need at most six hex digits. */
  lemma ShortHex(n: nat)
    ensures n < 0x1000000 ==> |NatToHex(n)| <= 6
  {
    if n < 0x1000000 {
      assert Pow16(6) == 0x1000000;
      HexDigits(n, 6);
    }
  }

  /** A number below `16^k` has at most `k` hex digits. */
  lemma {:induction false} HexDigits(n: nat, k: nat)
    requires k >= 1 && n < Pow16(k)
    ensures |NatToHex(n)| <= k
    decreases k
  {
    if n >= 16 {
      assert Pow16(1) == 16;
      assert n / 16 < Pow16(k - 1);
      HexDigits(n / 16, k - 1);
    }
  }

  /** Different colours are shown differently. */
  lemma HexColorInjective(a: nat, b: nat)
    ensures HexColor(a) == HexColor(b) ==> a == b
  {
  }

  // ---------------------------------------------------------------------------
  // Restoring the panel from a saved project

  /** The value an input element holds: a number, a checkbox or a colour string. */
  datatype Value = Num(x: real) | Check(b: bool) | Text(s: string)

  datatype Environment = Environment(
    sunPosX: real, sunPosY: real, sunPosZ: real, sunIntensity: real, sunShadow: bool,
    iblIntensity: real, bgBlur: real, fogColor: nat, fogDensity: real,
    lensflareEnabled: bool, cloudsEnabled: bool, cloudSpeed: real, cloudDensity: real)

  datatype Postprocessing = Postprocessing(
    bloomEnabled: bool, bloomThreshold: real, bloomStrength: real, bloomRadius: real,
    vignetteStrength: real, chromaticAberration: real, outlineEnabled: bool,
    outlineThickness: real, outlineColor: nat)

  datatype SavedState = SavedState(environment: Option<Environment>, postprocessing: Option<Postprocessing>)

  /** The input elements the saved state restores, by their element ids
      (`sun-x-slider` ... `cloud-density-slider`, `bloom-enabled-check` ...
      `outline-color-input`). */
  datatype Control =
    | SunX | SunY | SunZ | SunIntensity | SunShadow | IblIntensity | BgBlur
    | FogColor | FogDensity | LensflareEnabled | CloudsEnabled | CloudSpeed | CloudDensity
    | BloomEnabled | BloomThreshold | BloomStrength | BloomRadius | VignetteStrength
    | ChromaticAberration | OutlineEnabled | OutlineThickness | OutlineColor

  predicate InEnvironment(c: Control)
  {
    c in {SunX, SunY, SunZ, SunIntensity, SunShadow, IblIntensity, BgBlur,
          FogColor, FogDensity, LensflareEnabled, CloudsEnabled, CloudSpeed, CloudDensity}
  }

  /** The value `updateAllFromState` writes into a control, if its section is saved:
      numbers and checkboxes as saved, colours as `#rrggbb`. */
  function Restored(st: SavedState, c: Control): (r: Option<Value>)
    ensures r.Some? <==> (if InEnvironment(c) then st.environment.Some? else st.postprocessing.Some?)
    ensures c == FogColor && st.environment.Some? ==> r == Some(Text(HexColor(st.environment.value.fogColor)))
    ensures c == OutlineColor && st.postprocessing.Some? ==> r == Some(Text(HexColor(st.postprocessing.value.outlineColor)))
  {
    match st.environment
    case Some(e) =>
      (match c
       case SunX => Some(Num(e.sunPosX))
       case SunY => Some(Num(e.sunPosY))
       case SunZ => Some(Num(e.sunPosZ))
       case SunIntensity => Some(Num(e.sunIntensity))
       case SunShadow => Some(Check(e.sunShadow))
       case IblIntensity => Some(Num(e.iblIntensity))
       case BgBlur => Some(Num(e.bgBlur))
       case FogColor => Some(Text(HexColor(e.fogColor)))
       case FogDensity => Some(Num(e.fogDensity))
       case LensflareEnabled => Some(Check(e.lensflareEnabled))
       case CloudsEnabled => Some(Check(e.cloudsEnabled))
       case CloudSpeed => Some(Num(e.cloudSpeed))
       case CloudDensity => Some(Num(e.cloudDensity))
       case _ => RestoredPost(st.postprocessing, c))
    case None => if InEnvironment(c) then None else RestoredPost(st.postprocessing, c)
  }

  function RestoredPost(pp: Option<Postprocessing>, c: Control): Option<Value>
    requires !InEnvironment(c)
  {
    match pp
    case None => None
    case Some(p) =>
      match c
      case BloomEnabled => Some(Check(p.bloomEnabled))
      case BloomThreshold => Some(Num(p.bloomThreshold))
      case BloomStrength => Some(Num(p.bloomStrength))
      case BloomRadius => Some(Num(p.bloomRadius))
      case VignetteStrength => Some(Num(p.vignetteStrength))
      case ChromaticAberration => Some(Num(p.chromaticAberration))
      case OutlineEnabled => Some(Check(p.outlineEnabled))
      case OutlineThickness => Some(Num(p.outlineThickness))
      case OutlineColor => Some(Text(HexColor(p.outlineColor)))
  }

  /** `updateAllFromState(state)`: nothing for a missing state; otherwise every control
      of a saved section that is on the page takes its saved value and fires its
      event, and the world-control listener behind it marks the project dirty.
      Controls missing from the page are skipped. */
  function UpdateAllFromState(ui: map<Control, Value>, h: History.History, state: Option<SavedState>): (r: (map<Control, Value>, History.History))
    ensures state.None? ==> r == (ui, h)
    ensures r.0.Keys == ui.Keys
    ensures r.1.undoStack == h.undoStack && r.1.redoStack == h.redoStack
    ensures state.Some? ==> forall c :: c in ui && Restored(state.value, c).None? ==> r.0[c] == ui[c]
    ensures state.Some? ==> (r.1.isDirty <==> h.isDirty || exists c :: c in ui && Restored(state.value, c).Some?)
  {
    match state
    case None => (ui, h)
    case Some(st) =>
      var ui1 := map c | c in ui :: Restored(st, c).GetOr(ui[c]);
      var fired := exists c :: c in ui && Restored(st, c).Some?;
      (ui1, if fired then h.(isDirty := true) else h)
  }

  /** Restoring a saved fog colour shows it as a six-digit `#rrggbb` string that reads
      back as the same colour. */
  lemma RestoredFogColor(ui: map<Control, Value>, h: History.History, st: SavedState)
    requires st.environment.Some? && FogColor in ui
    requires st.environment.value.fogColor < 0x1000000
    ensures var r := UpdateAllFromState(ui, h, Some(st)).0[FogColor];
      r.Text? && |r.s| == 7 && r.s[0] == '#' && ParseBase(r.s[1..], 16) == st.environment.value.fogColor
  {
  }

  /** Restoring a state into a page that shows one of its controls marks the project
      dirty, because every restored control fires its listener. */
  lemma RestoringMarksDirty(ui: map<Control, Value>, h: History.History, st: SavedState)
    requires st.environment.Some? && SunX in ui
    ensures UpdateAllFromState(ui, h, Some(st)).1.isDirty
  {
    assert Restored(st, SunX).Some?;
  }

  /** A state without post-processing leaves the post-processing controls alone, and
      one with neither section changes nothing at all. */
  lemma MissingSectionsKept(ui: map<Control, Value>, h: History.History, st: SavedState)
    requires st.postprocessing.None?
    ensures var r := UpdateAllFromState(ui, h, Some(st));
      forall c :: c in ui && !InEnvironment(c) ==> r.0[c] == ui[c]
    ensures st.environment.None? ==> UpdateAllFromState(ui, h, Some(st)) == (ui, h)
  {
    if st.environment.None? {
      var r := UpdateAllFromState(ui, h, Some(st));
      assert forall c :: c in ui ==> Restored(st, c).None?;
      assert r.0 == ui;
    }
  }

  /** `updateSkyboxMode(mode)`: a falsy mode means `'hdri'`; the project becomes dirty. */
  function SkyboxMode(mode: Option<string>, h: History.History): (r: (string, History.History))
    ensures (mode.None? || mode == Some("")) ==> r.0 == "hdri"
    ensures mode.Some? && mode.value != "" ==> r.0 == mode.value
    ensures r.1 == h.(isDirty := true)
  {
    (if mode.Some? && mode.value != "" then mode.value else "hdri", h.(isDirty := true))
  }

  /** The mode applied is never empty, so applying it again applies the same mode:
      the fallback to `'hdri'` happens at most once. */
  lemma SkyboxModeSettles(mode: Option<string>, h: History.History, h2: History.History)
    ensures SkyboxMode(mode, h).0 != ""
    ensures SkyboxMode(Some(SkyboxMode(mode, h).0), h2).0 == SkyboxMode(mode, h).0
  {
  }

  /** The skybox inputs and their listeners: the mode selector passes its value,
      editing the colour picks `'color'` and editing either gradient end picks
      `'gradient'`. */
  datatype SkyboxInput = ModeSelect(value: string) | ColorInput | GradientTop | GradientBottom

  function SkyboxEvent(i: SkyboxInput, h: History.History): (r: (string, History.History))
    ensures i.ColorInput? ==> r.0 == "color"
    ensures i.GradientTop? || i.GradientBottom? ==> r.0 == "gradient"
    ensures i.ModeSelect? ==> r.0 == (if i.value == "" then "hdri" else i.value)
    ensures r.1.isDirty && r.1.undoStack == h.undoStack && r.1.redoStack == h.redoStack
  {
    match i
    case ModeSelect(v) => SkyboxMode(Some(v), h)
    case ColorInput => SkyboxMode(Some("color"), h)
    case _ => SkyboxMode(Some("gradient"), h)
  }
}
