/** The editor viewport's control modes (`ControlsManager`): orbit editing versus
    first-person "game" navigation, the keys that steer the first-person camera, and
    picking an object with the mouse. Ray casting is not modelled: a click comes
    with the objects the ray hit, nearest first. */
module Controls {
  import opened Wrappers
  import opened Text
  import opened SceneGraph
  import opened ObjectManager

  /** `forward` and `right` are the first-person movement axes, each -1, 0 or 1. */
  datatype Controls = Controls(
    orbitEnabled: bool, transformEnabled: bool, locked: bool, dragging: bool,
    forward: int, right: int)

  /** The state right after construction, which ends with `setControlType('orbit')`. */
  function Initial(): (c: Controls)
    ensures c.orbitEnabled && c.transformEnabled && !c.locked && !c.dragging
    ensures c.forward == 0 && c.right == 0
  {
    Controls(true, true, false, false, 0, 0)
  }

  /** `setControlType(type)`: orbit mode unlocks the pointer and enables orbiting and
      the transform gizmo; game mode disables both, drops the selection and asks the
      browser to lock the pointer; any other value changes nothing. The lock is the
      browser's to grant (it may refuse, for instance without a recent user gesture):
      `granted` is its answer, and without it the pointer stays as it was. Leaving the
      lock always succeeds. */
  function SetControlType(c: Controls, m: Manager, typ: string, granted: bool): (r: (Controls, Manager))
    ensures typ == "orbit" ==> r == (c.(locked := false, orbitEnabled := true, transformEnabled := true), m)
    ensures typ == "game" ==>
      r.0 == c.(locked := c.locked || granted, orbitEnabled := false, transformEnabled := false)
      && r.1 == SetSelected(m, None)
    ensures typ != "orbit" && typ != "game" ==> r == (c, m)
  {
    if typ == "orbit" then (c.(locked := false, orbitEnabled := true, transformEnabled := true), m)
    else if typ == "game" then
      (c.(orbitEnabled := false, transformEnabled := false, locked := c.locked || granted), SetSelected(m, None))
    else (c, m)
  }

  /** Switching to game mode and back restores editing, with nothing selected,
      whether or not the lock was granted. */
  lemma GameThenOrbit(c: Controls, m: Manager, granted: bool)
    ensures var (c1, m1) := SetControlType(c, m, "game", granted);
      var (c2, m2) := SetControlType(c1, m1, "orbit", granted);
      c2 == c.(locked := false, orbitEnabled := true, transformEnabled := true)
      && m2.selected.None? && m2.graph == m.graph && m2.items == m.items
  {
  }

  /** `onKeyDown`: only while the pointer is locked, w/s set the forward axis to 1/-1
      and a/d the right axis to -1/1. */
  function OnKeyDown(c: Controls, key: string): (r: Controls)
    ensures !c.locked ==> r == c
    ensures c.locked && ToLower(key) == "w" ==> r == c.(forward := 1)
    ensures c.locked && ToLower(key) == "s" ==> r == c.(forward := -1)
    ensures c.locked && ToLower(key) == "a" ==> r == c.(right := -1)
    ensures c.locked && ToLower(key) == "d" ==> r == c.(right := 1)
    ensures ToLower(key) !in {"w", "s", "a", "d"} ==> r == c
  {
    if !c.locked then c
    else
      var k := ToLower(key);
      if k == "w" then c.(forward := 1)
      else if k == "s" then c.(forward := -1)
      else if k == "a" then c.(right := -1)
      else if k == "d" then c.(right := 1)
      else c
  }

  /** `onKeyUp`: only while locked, releasing w or s zeroes the forward axis and a or d
      the right axis. */
  function OnKeyUp(c: Controls, key: string): (r: Controls)
    ensures !c.locked ==> r == c
    ensures c.locked && ToLower(key) in {"w", "s"} ==> r == c.(forward := 0)
    ensures c.locked && ToLower(key) in {"a", "d"} ==> r == c.(right := 0)
    ensures ToLower(key) !in {"w", "s", "a", "d"} ==> r == c
  {
    if !c.locked then c
    else
      var k := ToLower(key);
      if k == "w" || k == "s" then c.(forward := 0)
      else if k == "a" || k == "d" then c.(right := 0)
      else c
  }

  /** The movement axes only ever hold -1, 0 or 1. */
  ghost predicate AxesBounded(c: Controls)
  {
    -1 <= c.forward <= 1 && -1 <= c.right <= 1
  }

  lemma KeysKeepAxesBounded(c: Controls, key: string)
    requires AxesBounded(c)
    ensures AxesBounded(OnKeyDown(c, key)) && AxesBounded(OnKeyUp(c, key))
  {
  }

  /** A key press and its release leave the axis at rest. */
  lemma PressReleaseRests(c: Controls, key: string)
    requires c.locked && ToLower(key) in {"w", "s", "a", "d"}
    ensures var r := OnKeyUp(OnKeyDown(c, key), key);
      (ToLower(key) in {"w", "s"} ==> r == c.(forward := 0))
      && (ToLower(key) in {"a", "d"} ==> r == c.(right := 0))
  {
  }

  /** The gizmo's `dragging-changed` event: orbiting is off while dragging. */
  function DraggingChanged(c: Controls, value: bool): (r: Controls)
    ensures r.dragging == value && r.orbitEnabled == !value
    ensures r == c.(dragging := value, orbitEnabled := !value)
  {
    c.(dragging := value, orbitEnabled := !value)
  }

  /** A hit the picker skips outright: a helper or the grid. */
  predicate SkippedHit(g: Graph, h: Handle)
  {
    h in g.nodes && (g.nodes[h].flags.isHelper || g.nodes[h].flags.isGridHelper)
  }

  /** A hit whose top-level object is the transform gizmo. */
  predicate OnGizmo(g: Graph, h: Handle)
  {
    var t := TopLevelOf(g.nodes, h);
    t in g.nodes && g.nodes[t].flags.isTransformControls
  }

  predicate Selectable(g: Graph, h: Handle)
  {
    !SkippedHit(g, h) && !OnGizmo(g, h)
  }

  /** The picking loop over the hits, nearest first: the top-level object of the first
      hit that is neither a helper, the grid nor part of the gizmo. */
  function Pick(g: Graph, hits: seq<Handle>): (r: Option<Handle>)
    ensures r.None? <==> forall i :: 0 <= i < |hits| ==> !Selectable(g, hits[i])
    ensures r.Some? ==> exists i :: (0 <= i < |hits| && Selectable(g, hits[i]) && r.value == TopLevelOf(g.nodes, hits[i])
                                     && forall j :: 0 <= j < i ==> !Selectable(g, hits[j]))
    decreases |hits|
  {
    if |hits| == 0 then None
    else if Selectable(g, hits[0]) then Some(TopLevelOf(g.nodes, hits[0]))
    else
      var r := Pick(g, hits[1..]);
      if r.Some? then
        var i :| 0 <= i < |hits[1..]| && Selectable(g, hits[1..][i]) && r.value == TopLevelOf(g.nodes, hits[1..][i])
          && forall j :: 0 <= j < i ==> !Selectable(g, hits[1..][j]);
        assert hits[1..][i] == hits[i + 1];
        assert forall j :: 0 <= j < i + 1 ==> !Selectable(g, hits[j]) by {
          forall j | 0 <= j < i + 1
            ensures !Selectable(g, hits[j])
          {
            if j > 0 {
              assert hits[j] == hits[1..][j - 1];
            }
          }
        }
        r
      else
        r
  }

  /** For hits that hang under the scene, the picked object is a top-level child of
      the scene, so a click on a part of a model selects the whole model. */
  lemma PickIsTopLevel(g: Graph, hits: seq<Handle>)
    requires forall i :: 0 <= i < |hits| ==> hits[i] != SceneRoot && IsDescendantOf(g.nodes, hits[i], SceneRoot)
    ensures var r := Pick(g, hits);
      r.Some? ==> r.value in g.nodes && g.nodes[r.value].parent == Some(SceneRoot)
  {
    var r := Pick(g, hits);
    if r.Some? {
      var i :| 0 <= i < |hits| && Selectable(g, hits[i]) && r.value == TopLevelOf(g.nodes, hits[i]);
      TopWalkSpec(g.nodes, hits[i], {});
    }
  }

  /** `onPointerDown(e)`: ignored while dragging the gizmo, while the pointer is locked,
      for any button but the left one and on the UI chrome; otherwise the selection
      becomes the picked object, or nothing. */
  function PointerDown(c: Controls, m: Manager, button: int, onChrome: bool, hits: seq<Handle>): (r: Manager)
    ensures c.dragging || c.locked || button != 0 || onChrome ==> r == m
    ensures !(c.dragging || c.locked || button != 0 || onChrome) ==> r == SetSelected(m, Pick(m.graph, hits))
  {
    if c.dragging || c.locked then m
    else if button != 0 || onChrome then m
    else SetSelected(m, Pick(m.graph, hits))
  }

  /** A click that hits only helpers, the grid and the gizmo clears the selection. */
  lemma ClickOnNothingDeselects(c: Controls, m: Manager, hits: seq<Handle>)
    requires !c.dragging && !c.locked
    requires forall i :: 0 <= i < |hits| ==> !Selectable(m.graph, hits[i])
    ensures PointerDown(c, m, 0, false, hits).selected.None?
  {
  }

  /** What one frame of `update` does: first-person motion along the axes while
      locked, the orbit controls' damping otherwise. */
  datatype Tick = MoveCamera(right: int, forward: int) | OrbitUpdate

  function Update(c: Controls): (t: Tick)
    ensures t.MoveCamera? <==> c.locked
    ensures t.MoveCamera? ==> t.right == c.right && t.forward == c.forward
  {
    if c.locked then MoveCamera(c.right, c.forward) else OrbitUpdate
  }

  /** The frame follows the pointer lock, not the mode: switching to game mode moves
      the first-person camera exactly when the pointer is (or becomes) locked, and
      otherwise leaves a frame with orbiting disabled that only runs the (disabled)
      orbit controls. Orbit mode never moves the first-person camera. */
  lemma ModeDecidesTick(c: Controls, m: Manager, granted: bool)
    ensures Update(SetControlType(c, m, "game", granted).0).MoveCamera? <==> c.locked || granted
    ensures !c.locked && !granted ==>
      (Update(SetControlType(c, m, "game", granted).0) == OrbitUpdate
       && !SetControlType(c, m, "game", granted).0.orbitEnabled)
    ensures Update(SetControlType(c, m, "orbit", granted).0) == OrbitUpdate
  {
  }
}
