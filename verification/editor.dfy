/** The editor shell: the current project, the edit history and its interpreter
    (undo and redo of recorded additions and removals), saving the object list and
    loading a saved project (`loadScene`), including its guess of an object's type
    from its name. */
module Editor {
  import opened Wrappers
  import opened Text
  import opened SceneGraph
  import opened Creators
  import opened ObjectManager
  import History
  import UI

  datatype EditorState = EditorState(
    om: Manager, history: History.History, projectName: Option<string>, projectPath: Option<string>)

  /** `setProject(name, path)`: the project is named and nothing is unsaved. */
  function SetProject(e: EditorState, name: string, path: string): (r: EditorState)
    ensures r.projectName == Some(name) && r.projectPath == Some(path) && !r.history.isDirty
    ensures r.om == e.om && r.history.undoStack == e.history.undoStack && r.history.redoStack == e.history.redoStack
  {
    e.(projectName := Some(name), projectPath := Some(path), history := e.history.(isDirty := false))
  }

  /** `addHistory` if the object manager asked for an entry. */
  function Log(h: History.History, a: Option<Action>): (r: History.History)
    ensures a.None? ==> r == h
    ensures a.Some? ==> r == History.AddHistory(h, a.value)
  {
    if a.Some? then History.AddHistory(h, a.value) else h
  }

  // ---------------------------------------------------------------------------
  // Edits and their history.

  /** An unsuppressed `add` through the object manager: an object that was created
      is selected at the top level and its addition is the newest undo entry; when
      nothing was created the history is as it was. */
  function AddObject(e: EditorState, typ: string, category: string, ids: Fresh, marker: Node): (r: EditorState)
    requires !marker.flags.isEditorObject
    ensures r.projectName == e.projectName && r.projectPath == e.projectPath
    ensures var o := Add(e.om, typ, category, false, ids, marker);
      o.created.Some? ==>
        (o.created.value in r.om.graph.children && r.om.selected == o.created
         && r.history == History.AddHistory(e.history, History.Added(o.created.value)))
    ensures var o := Add(e.om, typ, category, false, ids, marker);
      o.created.None? ==> r.history == e.history && r.om.graph == e.om.graph
  {
    var o := Add(e.om, typ, category, false, ids, marker);
    e.(om := o.m, history := Log(e.history, o.action))
  }

  /** An unsuppressed `remove` through the object manager: removing nothing changes
      nothing; removing an object detaches it, clears a selection of it and makes its
      removal the newest undo entry. */
  function RemoveObject(e: EditorState, obj: Option<Handle>): (r: EditorState)
    ensures obj.None? ==> r == e
    ensures obj.Some? ==>
      (obj.value !in r.om.graph.children && r.om.selected != obj
       && r.history == History.AddHistory(e.history, History.Removed(obj.value)))
    ensures r.projectName == e.projectName && r.projectPath == e.projectPath
  {
    var o := Remove(e.om, obj, false);
    e.(om := o.m, history := Log(e.history, o.action))
  }

  /** Put an object back (the `undo` of a removal, the `redo` of an addition). */
  function Reinstate(m: Manager, h: Handle): (r: Manager)
    ensures h in m.graph.nodes ==> h in r.graph.children && r.selected == Some(h)
    ensures h !in m.graph.nodes ==> r == m
    ensures r.graph.nodes.Keys == m.graph.nodes.Keys
  {
    if h in m.graph.nodes then Restore(m, h) else m
  }

  /** The `undo` closure of an action. */
  function UndoAction(m: Manager, a: Action): (r: Manager)
    ensures r.graph.nodes.Keys == m.graph.nodes.Keys
  {
    match a
    case Added(h) => Remove(m, Some(h), true).m
    case Removed(h) => Reinstate(m, h)
  }

  /** The `redo` closure of an action. */
  function RedoAction(m: Manager, a: Action): (r: Manager)
    ensures r.graph.nodes.Keys == m.graph.nodes.Keys
  {
    match a
    case Added(h) => Reinstate(m, h)
    case Removed(h) => Remove(m, Some(h), true).m
  }

  /** `undo`: pop, run the action's undo, push it on the redo stack. */
  function Undo(e: EditorState): (r: EditorState)
    ensures r.history == History.Undo(e.history).history
    ensures |e.history.undoStack| == 0 ==> r == e
  {
    var step := History.Undo(e.history);
    match step.action
    case None => e
    case Some(a) => e.(om := UndoAction(e.om, a), history := step.history)
  }

  /** `redo`: pop, run the action's redo, push it back on the undo stack. */
  function Redo(e: EditorState): (r: EditorState)
    ensures r.history == History.Redo(e.history).history
    ensures |e.history.redoStack| == 0 ==> r == e
  {
    var step := History.Redo(e.history);
    match step.action
    case None => e
    case Some(a) => e.(om := RedoAction(e.om, a), history := step.history)
  }

  /** Every recorded action names an object of the object table. */
  ghost predicate HistoryWf(e: EditorState)
  {
    (forall i :: 0 <= i < |e.history.undoStack| ==> e.history.undoStack[i].obj in e.om.graph.nodes)
    && (forall i :: 0 <= i < |e.history.redoStack| ==> e.history.redoStack[i].obj in e.om.graph.nodes)
  }

  /** Objects are never dropped from the table, so every recorded action keeps
      naming a live object through additions, removals, undo and redo. */
  lemma AddObjectWf(e: EditorState, typ: string, category: string, ids: Fresh, marker: Node)
    requires !marker.flags.isEditorObject
    requires HistoryWf(e)
    ensures HistoryWf(AddObject(e, typ, category, ids, marker))
  {
    var o := Add(e.om, typ, category, false, ids, marker);
    var r := AddObject(e, typ, category, ids, marker);
    if o.action.Some? {
      var u := r.history.undoStack;
      forall i | 0 <= i < |u| ensures u[i].obj in r.om.graph.nodes {
        if i == |u| - 1 {
          assert u[i] == o.action.value;
        } else if |e.history.undoStack| < History.MaxHistorySize {
          assert u[i] == e.history.undoStack[i];
        } else {
          assert u[i] == e.history.undoStack[i + 1];
        }
      }
    }
  }

  lemma RemoveObjectWf(e: EditorState, obj: Option<Handle>)
    requires HistoryWf(e)
    requires obj.Some? ==> obj.value in e.om.graph.nodes
    ensures HistoryWf(RemoveObject(e, obj))
  {
    var o := Remove(e.om, obj, false);
    var r := RemoveObject(e, obj);
    if o.action.Some? {
      var u := r.history.undoStack;
      forall i | 0 <= i < |u| ensures u[i].obj in r.om.graph.nodes {
        if i == |u| - 1 {
          assert u[i] == o.action.value;
        } else if |e.history.undoStack| < History.MaxHistorySize {
          assert u[i] == e.history.undoStack[i];
        } else {
          assert u[i] == e.history.undoStack[i + 1];
        }
      }
    }
  }

  lemma UndoRedoWf(e: EditorState)
    requires HistoryWf(e)
    ensures HistoryWf(Undo(e)) && HistoryWf(Redo(e))
  {
    var u := e.history.undoStack;
    var d := e.history.redoStack;
    if |u| > 0 {
      var r := Undo(e);
      forall i | 0 <= i < |r.history.redoStack| ensures r.history.redoStack[i].obj in r.om.graph.nodes {
        if i < |d| { assert r.history.redoStack[i] == d[i]; } else { assert r.history.redoStack[i] == u[|u| - 1]; }
      }
      forall i | 0 <= i < |r.history.undoStack| ensures r.history.undoStack[i].obj in r.om.graph.nodes {
        assert r.history.undoStack[i] == u[i];
      }
    }
    if |d| > 0 {
      var r := Redo(e);
      forall i | 0 <= i < |r.history.undoStack| ensures r.history.undoStack[i].obj in r.om.graph.nodes {
        if i < |u| { assert r.history.undoStack[i] == u[i]; } else { assert r.history.undoStack[i] == d[|d| - 1]; }
      }
      forall i | 0 <= i < |r.history.redoStack| ensures r.history.redoStack[i].obj in r.om.graph.nodes {
        assert r.history.redoStack[i] == d[i];
      }
    }
  }

  /** Undoing an addition takes the object out of the scene, the registry and the
      selection, and leaves exactly that addition to redo; redoing it puts the object
      back, selected, with the undo stack as it was after the addition. */
  lemma AddUndoRedo(e: EditorState, typ: string, category: string, ids: Fresh, marker: Node)
    requires !marker.flags.isEditorObject
    requires Add(e.om, typ, category, false, ids, marker).created.Some?
    ensures var h := e.om.nextHandle;
      var e1 := AddObject(e, typ, category, ids, marker);
      var e2 := Undo(e1);
      var e3 := Redo(e2);
      h !in e2.om.graph.children && e2.om.selected != Some(h)
      && e1.om.graph.nodes[h].uuid !in e2.om.items
      && e2.history.redoStack == [History.Added(h)]
      && h in e3.om.graph.children && e3.om.selected == Some(h)
      && e3.history == e1.history
  {
    var e1 := AddObject(e, typ, category, ids, marker);
    History.UndoThenRedo(e1.history);
  }

  /** Undoing a removal puts the object back and selects it; redoing removes it again. */
  lemma RemoveUndoRedo(e: EditorState, h: Handle)
    requires h in e.om.graph.nodes
    ensures var e1 := RemoveObject(e, Some(h));
      var e2 := Undo(e1);
      var e3 := Redo(e2);
      h !in e1.om.graph.children
      && h in e2.om.graph.children && e2.om.selected == Some(h)
      && h !in e3.om.graph.children && e3.history == e1.history
  {
    var e1 := RemoveObject(e, Some(h));
    History.UndoThenRedo(e1.history);
  }

  // ---------------------------------------------------------------------------
  // Saving.

  /** The record `saveProject` writes for an editor object, as written: the type is the
      three.js class name, `geometryType` is copied from `userData.primitiveType` and
      `lightType` from `userData.lightType`, neither of which any factory sets. */
  function SaveRecord(n: Node): (r: Record)
    ensures r.geometryType.None? && r.lightType.None? && r.primitiveType.None?
    ensures r.name == Some(n.name) && r.typeName == Some(n.typeName) && r.isLight == n.light.Some?
  {
    Record(None, Some(n.name), Some(n.typeName), None, None, None,
           Some(n.position), Some(n.rotation), Some(n.scale),
           false, None, n.light.Some?, false, None, None,
           if n.light.Some? then Some(n.color) else None,
           if n.light.Some? then Some(n.intensity) else None,
           if n.light.Some? then Some(n.castShadow) else None)
  }

  /** The same record with the primitive or light type written out. */
  function SaveRecordFixed(n: Node): (r: Record)
    ensures n.light.Some? ==> r.lightType == Some(LightName(n.light.value))
    ensures n.light.None? && n.geometry.Some? && n.geometry.value != OtherGeometry ==>
      r.geometryType.Some? && ParsePrimitive(r.geometryType.value).Some?
      && GeometryOf(ParsePrimitive(r.geometryType.value).value) == n.geometry.value
    ensures r.name == Some(n.name) && r.isLight == n.light.Some?
  {
    var geometryType := match n.geometry
      case Some(BoxGeometry) => Some("cube")
      case Some(SphereGeometry) => Some("sphere")
      case Some(PlaneGeometry) => Some("plane")
      case _ => None;
    SaveRecord(n).(geometryType := if n.light.None? then geometryType else None,
                   lightType := if n.light.Some? then Some(LightName(n.light.value)) else None)
  }

  datatype SaveError = ProjectNotSet | WriteFailed

  /** `!this.projectPath || !this.projectName`: a path or name that is absent or
      empty counts as not set. */
  predicate Unset(s: Option<string>)
  {
    s.None? || s == Some("")
  }

  /** `saveProject`: without a project (a path or name absent or empty) nothing is
      written; otherwise the editor objects among the top-level children are written
      in order, each as `SaveRecord` writes it, and, if the write succeeds, nothing
      is unsaved any more. `written` is the outcome of the file write. */
  function SaveProject(e: EditorState, written: bool): (r: Result<(EditorState, seq<Record>), SaveError>)
    ensures r == Err(ProjectNotSet) <==> Unset(e.projectName) || Unset(e.projectPath)
    ensures !Unset(e.projectName) && !Unset(e.projectPath) && !written ==> r == Err(WriteFailed)
    ensures r.Ok? <==> !Unset(e.projectName) && !Unset(e.projectPath) && written
    ensures r.Ok? ==>
      (!r.value.0.history.isDirty && r.value.0.om == e.om
       && r.value.0.history.undoStack == e.history.undoStack
       && r.value.0.projectName == e.projectName && r.value.0.projectPath == e.projectPath)
    ensures r.Ok? ==> var es := EditorObjects(e.om.graph, e.om.graph.children);
      |r.value.1| == |es|
      && (forall i :: 0 <= i < |es| ==> es[i] in e.om.graph.nodes && r.value.1[i] == SaveRecord(e.om.graph.nodes[es[i]]))
  {
    if Unset(e.projectName) || Unset(e.projectPath) then Err(ProjectNotSet)
    else if !written then Err(WriteFailed)
    else
      var es := EditorObjects(e.om.graph, e.om.graph.children);
      var records := seq(|es|, i requires 0 <= i < |es| => SaveRecord(e.om.graph.nodes[es[i]]));
      Ok((e.(history := e.history.(isDirty := false)), records))
  }

  /** A saved project holds no primitive or light type at all: every record it writes
      leaves both out, so loading has only the class name and the object's name to go
      on. */
  lemma SavedRecordsUntyped(e: EditorState, written: bool)
    requires SaveProject(e, written).Ok?
    ensures forall d :: d in SaveProject(e, written).value.1 ==> d.geometryType.None? && d.lightType.None?
  {
    var rs := SaveProject(e, written).value.1;
    forall d | d in rs
      ensures d.geometryType.None? && d.lightType.None?
    {
      var i :| 0 <= i < |rs| && rs[i] == d;
    }
  }

  // ---------------------------------------------------------------------------
  // Loading.

  /** What `loadScene` is given: nothing, a string that is not JSON, or a project
      whose `objects` field is an array (Some) or anything else (None). */
  datatype ProjectInput =
    | NullInput
    | Unparsable
    | Project(objects: Option<seq<Record>>, environment: Option<UI.Environment>, postprocessing: Option<UI.Postprocessing>)

  /** `a || b`: the first present, non-empty string. */
  function Or(a: Option<string>, b: Option<string>): (r: Option<string>)
    ensures r.Some? ==> r.value != ""
    ensures a.Some? && a.value != "" ==> r == a
  {
    if a.Some? && a.value != "" then a else if b.Some? && b.value != "" then b else None
  }

  /** Type names that carry no information about what to create. */
  predicate IsGenericType(t: Option<string>)
  {
    t.None? || ToLower(t.value) == "mesh" || ToLower(t.value) == "object3d" || ToLower(t.value) == "group"
  }

  /** The category and type `loadScene` settles on for a record. */
  datatype Kind = Kind(category: string, typ: Option<string>)

  /** The type guess from the first word of the lower-cased name. A guess is one of
      the three primitives, keeping the category the light flag gave, or a point or
      directional light, which makes the record a light; with no name, or a name
      that suggests nothing, the record keeps what it had. */
  function Infer(d: Record, fallback: Kind): (r: Kind)
    ensures r == fallback || (r.typ.Some? && r.typ.value in {"cube", "sphere", "plane", "point", "directional"})
    ensures r != fallback && r.typ.Some? && r.typ.value in {"cube", "sphere", "plane"} ==> r.category == fallback.category
    ensures r != fallback && r.typ.Some? && r.typ.value in {"point", "directional"} ==> r.category == LightCategory
    ensures d.name.None? ==> r == fallback
  {
    var prefix := FirstToken(ToLower(d.name.GetOr("")));
    if prefix == "cube" || prefix == "box" then fallback.(typ := Some("cube"))
    else if prefix == "sphere" || prefix == "ball" then fallback.(typ := Some("sphere"))
    else if prefix == "plane" || prefix == "ground" || prefix == "floor" then fallback.(typ := Some("plane"))
    else if Contains(prefix, "point") then Kind(LightCategory, Some("point"))
    else if Contains(prefix, "dir") || Contains(prefix, "directional") then Kind(LightCategory, Some("directional"))
    else fallback
  }

  /** The category is the light flag; the type the first non-empty of `geometryType`,
      `lightType`, `primitiveType` and `type`, replaced by a guess from the name when
      it is missing or generic. */
  function ResolveKind(d: Record): (r: Kind)
    ensures r.category == PrimitiveCategory || r.category == LightCategory
  {
    var given := Kind(if d.isLight then LightCategory else PrimitiveCategory,
                      Or(Or(Or(d.geometryType, d.lightType), d.primitiveType), d.typeName));
    if IsGenericType(given.typ) then Infer(d, given) else given
  }

  /** Whether `add` can build the kind. */
  predicate Accepted(k: Kind)
  {
    k.typ.Some?
    && ((k.category == PrimitiveCategory && ParsePrimitive(k.typ.value).Some?)
        || (k.category == LightCategory && ParseLight(k.typ.value).Some?))
  }

  /** An explicit, non-generic type is never second-guessed. */
  lemma ExplicitTypeKept(d: Record)
    requires !IsGenericType(Or(Or(Or(d.geometryType, d.lightType), d.primitiveType), d.typeName))
    ensures ResolveKind(d).typ == Or(Or(Or(d.geometryType, d.lightType), d.primitiveType), d.typeName)
    ensures ResolveKind(d).category == (if d.isLight then LightCategory else PrimitiveCategory)
  {
  }

  /** The factories' default names are enough to rebuild an object: a record with no
      usable type whose name is a primitive's name, alone or followed by '_', '-' or
      white space and more (as `cube_2`), comes back as that primitive. */
  lemma InferFromPrimitiveName(d: Record, p: PrimitiveType, rest: string)
    requires IsGenericType(Or(Or(Or(d.geometryType, d.lightType), d.primitiveType), d.typeName))
    requires !d.isLight && d.name == Some(PrimitiveName(p) + rest)
    requires rest == "" || IsNameSeparator(rest[0])
    ensures ResolveKind(d) == Kind(PrimitiveCategory, Some(PrimitiveName(p)))
    ensures Accepted(ResolveKind(d))
  {
    var w := PrimitiveName(p);
    ToLowerConcat(w, rest);
    ToLowerOfLower(w);
    var lr := ToLower(rest);
    if |rest| > 0 {
      assert lr[0] == LowerChar(rest[0]);
    }
    FirstTokenOfWord(w, lr);
    TypeNamesRoundTrip(p, Point);
  }

  /** Likewise a record named `<light>Light`, the name `createLight` gives, comes back
      as that light, even when its light flag is missing. */
  lemma InferFromLightName(d: Record, l: LightType)
    requires IsGenericType(Or(Or(Or(d.geometryType, d.lightType), d.primitiveType), d.typeName))
    requires d.name == Some(LightName(l) + "Light")
    ensures ResolveKind(d) == Kind(LightCategory, Some(LightName(l)))
    ensures Accepted(ResolveKind(d))
  {
    TypeNamesRoundTrip(Cube, l);
    var name := d.name.value;
    var t := FirstToken(ToLower(name));
    LightWordOf(name, l);
    assert |t| >= 10;
    if l == Point { PointWord(t); } else { DirectionalWord(t); }
  }

  /** A light's default name, lower-cased, is one word. */
  lemma LightWordOf(name: string, l: LightType)
    requires name == LightName(l) + "Light"
    ensures FirstToken(ToLower(name)) == LightName(l) + "light"
  {
    var w := LightName(l);
    assert forall i :: 0 <= i < |w| ==> 'a' <= w[i] <= 'z';
    ToLowerConcat(w, "Light");
    ToLowerOfLower(w);
    LowerLight();
    FirstTokenOfWord(w + "light", "");
    assert w + "light" + "" == w + "light";
  }

  lemma PointWord(t: string)
    requires t == LightName(Point) + "light"
    ensures Contains(t, "point")
  {
    assert t[0..5] == "point";
    ContainsFromWindow(t, "point", 0);
  }

  lemma DirectionalWord(t: string)
    requires t == LightName(Directional) + "light"
    ensures Contains(t, "dir") && !Contains(t, "point")
  {
    assert t[0..3] == "dir";
    ContainsFromWindow(t, "dir", 0);
    assert forall i :: 0 <= i < |t| ==> t[i] != 'p';
    NoCharNoContains(t, "point");
  }

  lemma LowerLight()
    ensures ToLower("Light") == "light"
  {
  }

  /** The first word of lower-case letters followed by a separator (or nothing) is the
      word itself. */
  lemma FirstTokenOfWord(w: string, rest: string)
    requires forall i :: 0 <= i < |w| ==> 'a' <= w[i] <= 'z'
    requires rest == "" || IsNameSeparator(rest[0])
    ensures FirstToken(w + rest) == w
  {
    var s := w + rest;
    assert s[..|w|] == w;
    FirstTokenPrefix(s, w);
  }

  /** `FirstToken(s)` is the longest separator-free prefix. */
  lemma {:induction false} FirstTokenPrefix(s: string, w: string)
    requires w <= s
    requires forall i :: 0 <= i < |w| ==> !IsNameSeparator(w[i])
    requires |w| < |s| ==> IsNameSeparator(s[|w|])
    ensures FirstToken(s) == w
    decreases |w|
  {
    if |w| > 0 {
      FirstTokenPrefix(s[1..], w[1..]);
    }
  }

  /** The properties `loadScene` copies onto a created object before registering it:
      the name if non-empty, the transform, a non-zero colour for meshes (only they
      have a material), the intensity for lights, and the shadow flag. */
  function Configure(n: Node, d: Record): (r: Node)
    ensures r.uuid == n.uuid && r.flags == n.flags && r.geometry == n.geometry && r.light == n.light
    ensures r.parent == n.parent
    ensures d.name.Some? && d.name.value != "" ==> r.name == d.name.value
    ensures d.name.None? || d.name == Some("") ==> r.name == n.name
    ensures n.geometry.None? ==> r.color == n.color
    ensures n.light.None? ==> r.intensity == n.intensity
  {
    n.(name := if d.name.Some? && d.name.value != "" then d.name.value else n.name,
       position := d.position.GetOr(n.position), rotation := d.rotation.GetOr(n.rotation),
       scale := d.scale.GetOr(n.scale),
       color := if d.color.Some? && d.color.value != 0 && n.geometry.Some? then d.color.value else n.color,
       intensity := if d.intensity.Some? && n.light.Some? then d.intensity.value else n.intensity,
       castShadow := d.castShadow.GetOr(n.castShadow))
  }

  /** One record of `loadScene`: skipped unless its resolved kind is accepted;
      otherwise a suppressed `add`, the saved properties, then registration. */
  function LoadRecord(m: Manager, d: Record, ids: Fresh, marker: Node): (r: Outcome)
    requires !marker.flags.isEditorObject
    ensures r.action.None?
    ensures r.created.Some? <==> Accepted(ResolveKind(d))
    ensures r.created.None? ==> r.m == m
    ensures r.created.Some? ==> r.created.value == m.nextHandle && r.created.value in r.m.graph.nodes
    ensures r.created.Some? && m.hasList && ids.uuid != "" ==> ids.uuid in r.m.items
    ensures r.created.Some? && ResolveKind(d).category == PrimitiveCategory ==>
      r.m.graph.nodes[r.created.value].geometry == Some(GeometryOf(ParsePrimitive(ResolveKind(d).typ.value).value))
    ensures r.created.Some? && ResolveKind(d).category == LightCategory ==>
      r.m.graph.nodes[r.created.value].light == ParseLight(ResolveKind(d).typ.value)
    ensures m.graph.nodes.Keys <= r.m.graph.nodes.Keys && r.m.nextHandle >= m.nextHandle
    ensures r.m.hasList == m.hasList
    ensures forall x :: x in r.m.graph.children <==> x in m.graph.children || (r.created.Some? && x == r.created.value)
    ensures r.created.Some? ==> r.m.nextHandle > r.created.value
    ensures forall x :: x in m.graph.nodes && x < m.nextHandle ==> r.m.graph.nodes[x] == m.graph.nodes[x]
    ensures forall x :: x in r.m.graph.nodes ==> x in m.graph.nodes || x >= m.nextHandle
  {
    var k := ResolveKind(d);
    if !Accepted(k) then Outcome(m, None, None)
    else
      var o := Add(m, k.typ.value, k.category, true, ids, marker);
      match o.created
      case None => Outcome(m, None, None)
      case Some(h) =>
        var n := o.m.graph.nodes[h];
        var m1 := o.m.(graph := o.m.graph.(nodes := o.m.graph.nodes[h := Configure(n, d)]));
        Outcome(Register(m1, h), Some(h), None)
  }

  /** A node is the object an accepted kind asks for: the primitive's geometry, or the
      light of that type. */
  predicate OfKind(n: Node, k: Kind)
    requires Accepted(k)
  {
    (k.category == PrimitiveCategory ==> n.geometry == Some(GeometryOf(ParsePrimitive(k.typ.value).value)))
    && (k.category == LightCategory ==> n.light == ParseLight(k.typ.value))
  }

  /** The `forEach` over the records: every accepted record leaves a new top-level
      object of its kind, existing children stay, and the objects there before keep
      every property. */
  function LoadRecords(m: Manager, ds: seq<Record>, ids: seq<Fresh>, marker: Node): (r: Manager)
    requires |ids| >= |ds|
    requires !marker.flags.isEditorObject
    ensures m.graph.nodes.Keys <= r.graph.nodes.Keys && r.nextHandle >= m.nextHandle
    ensures r.hasList == m.hasList
    ensures forall x :: x in m.graph.children ==> x in r.graph.children
    ensures forall x :: x in r.graph.children ==> x in m.graph.children || x >= m.nextHandle
    ensures forall x :: x in m.graph.nodes && x < m.nextHandle ==> r.graph.nodes[x] == m.graph.nodes[x]
    ensures forall x :: x in r.graph.nodes ==> x in m.graph.nodes || x >= m.nextHandle
    ensures forall i :: 0 <= i < |ds| && Accepted(ResolveKind(ds[i])) ==>
      exists x :: m.nextHandle <= x < r.nextHandle && x in r.graph.children && x in r.graph.nodes
                  && OfKind(r.graph.nodes[x], ResolveKind(ds[i]))
    decreases |ds|
  {
    if |ds| == 0 then m
    else
      var o := LoadRecord(m, ds[0], ids[0], marker);
      var r := LoadRecords(o.m, ds[1..], ids[1..], marker);
      LoadRecordsCreate(m, ds, o, r);
      r
  }

  /** The induction step of `LoadRecords`: the first record's object survives the rest
      of the loop, and the later records' objects are fresh for `m` too. */
  lemma LoadRecordsCreate(m: Manager, ds: seq<Record>, o: Outcome, r: Manager)
    requires |ds| > 0
    requires o.created.Some? <==> Accepted(ResolveKind(ds[0]))
    requires o.created.Some? ==> o.created.value == m.nextHandle && o.created.value in o.m.graph.nodes
    requires o.created.Some? && ResolveKind(ds[0]).category == PrimitiveCategory ==>
      o.m.graph.nodes[o.created.value].geometry == Some(GeometryOf(ParsePrimitive(ResolveKind(ds[0]).typ.value).value))
    requires o.created.Some? && ResolveKind(ds[0]).category == LightCategory ==>
      o.m.graph.nodes[o.created.value].light == ParseLight(ResolveKind(ds[0]).typ.value)
    requires forall x :: x in o.m.graph.children <==> x in m.graph.children || (o.created.Some? && x == o.created.value)
    requires o.created.Some? ==> o.m.nextHandle > o.created.value
    requires o.m.nextHandle >= m.nextHandle
    requires o.m.graph.nodes.Keys <= r.graph.nodes.Keys && r.nextHandle >= o.m.nextHandle
    requires forall x :: x in o.m.graph.children ==> x in r.graph.children
    requires forall x :: x in o.m.graph.nodes && x < o.m.nextHandle ==> r.graph.nodes[x] == o.m.graph.nodes[x]
    requires forall i :: 0 <= i < |ds[1..]| && Accepted(ResolveKind(ds[1..][i])) ==>
      exists x :: o.m.nextHandle <= x < r.nextHandle && x in r.graph.children && x in r.graph.nodes
                  && OfKind(r.graph.nodes[x], ResolveKind(ds[1..][i]))
    ensures forall i :: 0 <= i < |ds| && Accepted(ResolveKind(ds[i])) ==>
      exists x :: m.nextHandle <= x < r.nextHandle && x in r.graph.children && x in r.graph.nodes
                  && OfKind(r.graph.nodes[x], ResolveKind(ds[i]))
  {
    forall i | 0 <= i < |ds| && Accepted(ResolveKind(ds[i]))
      ensures exists x :: m.nextHandle <= x < r.nextHandle && x in r.graph.children && x in r.graph.nodes
                          && OfKind(r.graph.nodes[x], ResolveKind(ds[i]))
    {
      if i == 0 {
        var h := o.created.value;
        assert r.graph.nodes[h] == o.m.graph.nodes[h];
        assert OfKind(r.graph.nodes[h], ResolveKind(ds[0]));
      } else {
        assert ds[i] == ds[1..][i - 1];
      }
    }
  }

  /** The default ground and stray planes `loadScene` clears away: a non-editor object
      whose name mentions "ground", or a plane not flagged `keep`. */
  predicate StrayGround(n: Node)
  {
    !n.flags.isEditorObject
    && (Contains(ToLower(n.name), "ground") || Contains(ToLower(n.name), "ground_helper") || n.name == "GROUND_HELPER"
        || (n.geometry == Some(PlaneGeometry) && !n.flags.keep))
  }

  function RemoveIfStray(m: Manager, h: Handle): (r: Manager)
    ensures r.items == m.items && r.counters == m.counters && r.nextHandle == m.nextHandle && r.hasList == m.hasList
    ensures r.graph.nodes.Keys == m.graph.nodes.Keys
    ensures forall x :: x in m.graph.nodes ==> r.graph.nodes[x].(parent := None) == m.graph.nodes[x].(parent := None)
    ensures forall x :: x in r.graph.children <==>
      x in m.graph.children && !(x == h && h in m.graph.nodes && StrayGround(m.graph.nodes[h]))
  {
    if h in m.graph.nodes && StrayGround(m.graph.nodes[h]) then m.(graph := Detach(m.graph, h)) else m
  }

  function RemoveStrayGround(m: Manager, hs: seq<Handle>): (r: Manager)
    ensures r.items == m.items && r.counters == m.counters && r.nextHandle == m.nextHandle && r.hasList == m.hasList
    ensures r.graph.nodes.Keys == m.graph.nodes.Keys
    ensures forall x :: x in m.graph.nodes ==> r.graph.nodes[x].(parent := None) == m.graph.nodes[x].(parent := None)
    ensures forall x :: x in r.graph.children <==>
      x in m.graph.children && !(x in hs && x in m.graph.nodes && StrayGround(m.graph.nodes[x]))
    decreases |hs|
  {
    if |hs| == 0 then m
    else RemoveStrayGround(RemoveIfStray(m, hs[0]), hs[1..])
  }

  /** Whether a top-level child outlives the clean-up at the start of a load. */
  predicate Survives(m: Manager, x: Handle)
  {
    x in m.graph.children
    && !(x in m.graph.nodes && (m.graph.nodes[x].flags.isEditorObject || StrayGround(m.graph.nodes[x])))
  }

  /** `loadScene(projectData)`. Null input or a string that is not JSON changes nothing.
      Otherwise the editor objects and the default ground go, each accepted record is
      recreated, the scene list is rebuilt, and the history is emptied with nothing
      unsaved. A project with an environment section runs the ground clean-up a second
      time after the records (the fallback branch of the environment restore), so
      without a scene list, where loaded objects are never marked as editor objects, a
      loaded plane or "ground" is cleared again. `ids` supplies the identifiers three.js
      draws for the objects made. */
  function LoadScene(e: EditorState, input: ProjectInput, ids: seq<Fresh>, marker: Node): (r: EditorState)
    requires input.Project? && input.objects.Some? ==> |ids| >= |input.objects.value|
    requires !marker.flags.isEditorObject
    ensures input.NullInput? || input.Unparsable? ==> r == e
    ensures input.Project? ==> r.history == History.Initial()
    ensures input.Project? ==> r.projectName == e.projectName && r.projectPath == e.projectPath
    ensures input.Project? ==>
      forall x: Handle :: Survives(e.om, x) && (input.environment.None? || x < e.om.nextHandle) ==> x in r.om.graph.children
    ensures input.Project? ==> forall x :: x in r.om.graph.children ==> Survives(e.om, x) || x >= e.om.nextHandle
    ensures input.Project? && input.objects.Some? && input.environment.None? ==>
      forall i :: 0 <= i < |input.objects.value| && Accepted(ResolveKind(input.objects.value[i])) ==>
        exists x :: x >= e.om.nextHandle && x in r.om.graph.children && x in r.om.graph.nodes
                    && OfKind(r.om.graph.nodes[x], ResolveKind(input.objects.value[i]))
    ensures input.Project? && input.environment.Some? && !e.om.hasList ==>
      forall x :: x in r.om.graph.children && x in r.om.graph.nodes ==> !StrayGround(r.om.graph.nodes[x])
  {
    match input
    case NullInput => e
    case Unparsable => e
    case Project(objects, environment, _) =>
      var m := LoadObjects(e.om, objects, environment.Some?, ids, marker);
      var m' := Rebuild(m);
      assert forall x :: x in m.graph.nodes && x in m.graph.children ==> SameKind(m'.graph.nodes[x], m.graph.nodes[x]);
      e.(om := m', history := History.Initial())
  }

  /** The scene part of `loadScene` before the list is rebuilt: the clean-up, the
      records, and the second ground clean-up when `environment` is set. */
  function LoadObjects(m: Manager, objects: Option<seq<Record>>, environment: bool, ids: seq<Fresh>, marker: Node): (r: Manager)
    requires objects.Some? ==> |ids| >= |objects.value|
    requires !marker.flags.isEditorObject
    ensures r.hasList == m.hasList
    ensures forall x: Handle :: Survives(m, x) && (!environment || x < m.nextHandle) ==> x in r.graph.children
    ensures forall x :: x in r.graph.children ==> Survives(m, x) || x >= m.nextHandle
    ensures objects.Some? && !environment ==>
      forall i :: 0 <= i < |objects.value| && Accepted(ResolveKind(objects.value[i])) ==>
        exists x :: x >= m.nextHandle && x in r.graph.children && x in r.graph.nodes
                    && OfKind(r.graph.nodes[x], ResolveKind(objects.value[i]))
    ensures environment ==> forall x :: x in r.graph.children && x in r.graph.nodes ==> !StrayGround(r.graph.nodes[x])
  {
    var m1 := RemoveEditorObjects(m, m.graph.children);
    var m2 := RemoveStrayGround(m1, m1.graph.children);
    var m3 := if objects.Some? && |objects.value| > 0 then LoadRecords(m2, objects.value, ids, marker) else m2;
    var m4 := if environment then RemoveStrayGround(m3, m3.graph.children) else m3;
    CleanUpSurvivors(m, m1, m2);
    LoadedKeepsSurvivors(m, m2, m3, m4, environment);
    m4
  }

  /** The records and the second clean-up keep every survivor of the first one; the
      second clean-up only spares old objects that were spared before. */
  lemma LoadedKeepsSurvivors(m: Manager, m2: Manager, m3: Manager, m4: Manager, environment: bool)
    requires m2.nextHandle == m.nextHandle && m2.graph.nodes.Keys == m.graph.nodes.Keys
    requires forall x :: x in m.graph.nodes ==> m2.graph.nodes[x].(parent := None) == m.graph.nodes[x].(parent := None)
    requires forall x :: x in m2.graph.children <==> Survives(m, x)
    requires m2.graph.nodes.Keys <= m3.graph.nodes.Keys
    requires forall x :: x in m2.graph.children ==> x in m3.graph.children
    requires forall x :: x in m2.graph.nodes && x < m2.nextHandle ==> m3.graph.nodes[x] == m2.graph.nodes[x]
    requires forall x :: x in m3.graph.nodes ==> x in m2.graph.nodes || x >= m2.nextHandle
    requires !environment ==> m4 == m3
    requires environment ==> forall x :: x in m4.graph.children <==>
      x in m3.graph.children && !(x in m3.graph.nodes && StrayGround(m3.graph.nodes[x]))
    ensures forall x: Handle :: Survives(m, x) && (!environment || x < m.nextHandle) ==> x in m4.graph.children
  {
    forall x: Handle | Survives(m, x) && (!environment || x < m.nextHandle)
      ensures x in m4.graph.children
    {
      assert x in m3.graph.children;
      if environment && x in m3.graph.nodes {
        assert m3.graph.nodes[x] == m2.graph.nodes[x];
        StrayGroundIgnoresParent(m2.graph.nodes[x], m.graph.nodes[x]);
      }
    }
  }

  /** What survives the clean-up at the start of a load is exactly `Survives`, and the
      objects keep everything but their parent link. */
  lemma CleanUpSurvivors(m: Manager, m1: Manager, m2: Manager)
    requires m1.nextHandle == m.nextHandle && m1.hasList == m.hasList && m1.graph.nodes.Keys == m.graph.nodes.Keys
    requires forall x :: x in m.graph.nodes ==> m1.graph.nodes[x].(parent := None) == m.graph.nodes[x].(parent := None)
    requires forall x :: x in m1.graph.children <==>
      x in m.graph.children && !(x in m.graph.nodes && m.graph.nodes[x].flags.isEditorObject)
    requires m2.nextHandle == m1.nextHandle && m2.hasList == m1.hasList && m2.graph.nodes.Keys == m1.graph.nodes.Keys
    requires forall x :: x in m1.graph.nodes ==> m2.graph.nodes[x].(parent := None) == m1.graph.nodes[x].(parent := None)
    requires forall x :: x in m2.graph.children <==>
      x in m1.graph.children && !(x in m1.graph.nodes && StrayGround(m1.graph.nodes[x]))
    ensures forall x :: x in m.graph.nodes ==> m2.graph.nodes[x].(parent := None) == m.graph.nodes[x].(parent := None)
    ensures forall x :: x in m2.graph.children <==> Survives(m, x)
  {
    forall x | x in m.graph.nodes
      ensures StrayGround(m1.graph.nodes[x]) <==> StrayGround(m.graph.nodes[x])
    {
      StrayGroundIgnoresParent(m1.graph.nodes[x], m.graph.nodes[x]);
    }
  }

  /** Being a stray ground does not depend on the parent link. */
  lemma StrayGroundIgnoresParent(a: Node, b: Node)
    requires a.(parent := None) == b.(parent := None)
    ensures StrayGround(a) <==> StrayGround(b)
    ensures SameKind(a, b)
  {
    assert a.(parent := None).name == a.name && b.(parent := None).name == b.name;
    assert a.(parent := None).flags == a.flags && b.(parent := None).flags == b.flags;
    assert a.(parent := None).geometry == a.geometry && b.(parent := None).geometry == b.geometry;
    assert a.(parent := None).light == a.light && b.(parent := None).light == b.light;
  }

  /** The saved state `loadScene` hands to `updateAllFromState`. Neither the
      environment nor the post-processing manager has an `applyState`, and the panel
      has no per-section update, so only the last fallback runs: when the project has
      an environment section, and then with both sections. A project with
      post-processing but no environment restores nothing. */
  function RestoredState(input: ProjectInput): (r: Option<UI.SavedState>)
    ensures r.Some? <==> input.Project? && input.environment.Some?
    ensures r.Some? ==> r.value.environment == input.environment && r.value.postprocessing == input.postprocessing
  {
    if input.Project? && input.environment.Some? then Some(UI.SavedState(input.environment, input.postprocessing))
    else None
  }

  /** Post-processing saved without an environment is not restored on load: the panel
      keeps every control, where restoring that section would set the outline colour. */
  lemma PostprocessingAloneNotRestored(ui: map<UI.Control, UI.Value>, h: History.History,
                                       objects: Option<seq<Record>>, post: UI.Postprocessing)
    requires UI.OutlineColor in ui
    ensures UI.UpdateAllFromState(ui, h, RestoredState(Project(objects, None, Some(post)))) == (ui, h)
    ensures UI.UpdateAllFromState(ui, h, Some(UI.SavedState(None, Some(post)))).0[UI.OutlineColor]
            == UI.Value.Text(UI.HexColor(post.outlineColor))
  {
  }

  /** A light saved by `saveProject` as written never comes back: its record names the
      three.js class ("PointLight"), which is neither generic nor an accepted light type. */
  lemma SaveLoadLosesLights(m: Manager, l: LightType, uuid: string, helperUuid: string, ids: Fresh, marker: Node)
    requires !marker.flags.isEditorObject
    ensures CreateLight(LightName(l), uuid, helperUuid).Some?
    ensures LoadRecord(m, SaveRecord(CreateLight(LightName(l), uuid, helperUuid).value.light), ids, marker).created.None?
  {
    TypeNamesRoundTrip(Cube, l);
    var n := CreateLight(LightName(l), uuid, helperUuid).value.light;
    var d := SaveRecord(n);
    var t := if l == Point then "PointLight" else "DirectionalLight";
    assert n.typeName == t;
    assert Or(Or(Or(d.geometryType, d.lightType), d.primitiveType), d.typeName) == Some(t);
    if l == Point {
      assert ToLower("PointLight") == "pointlight";
    } else {
      assert ToLower("DirectionalLight") == "directionallight";
    }
    assert !IsGenericType(Some(t));
    assert ResolveKind(d) == Kind(LightCategory, Some(t));
    assert !Accepted(ResolveKind(d));
  }

  /** With the type written out, every light and every built-in primitive saved comes
      back as the same kind of object, whatever it has been renamed to. */
  lemma SaveFixedLoadKeepsKind(m: Manager, n: Node, ids: Fresh, marker: Node)
    requires !marker.flags.isEditorObject
    requires n.light.Some? || (n.geometry.Some? && n.geometry.value != OtherGeometry)
    ensures var o := LoadRecord(m, SaveRecordFixed(n), ids, marker);
      o.created.Some?
      && (n.light.Some? ==> o.m.graph.nodes[o.created.value].light == n.light)
      && (n.light.None? ==> o.m.graph.nodes[o.created.value].geometry == n.geometry)
  {
    var d := SaveRecordFixed(n);
    if n.light.Some? {
      TypeNamesRoundTrip(Cube, n.light.value);
      var t := LightName(n.light.value);
      assert t == "point" || t == "directional";
      assert ToLower(t) == t;
      assert !IsGenericType(Some(t));
    } else {
      var t := d.geometryType.value;
      assert t == "cube" || t == "sphere" || t == "plane";
      assert ToLower(t) == t;
      assert !IsGenericType(Some(t));
    }
  }
}
