/** The older single-file editor (`renderer.js`): its object factories, which never
    reject a type name, its scene list with the 15-character names, selection with the
    transform-gizmo guard, removal with the animation mixers and cached materials, and
    the rebuild of the list from the scene. Objects are the scene graph's nodes; the
    time stamp in generated names is a parameter. */
module Legacy {
  import opened Wrappers
  import opened Text
  import opened SceneGraph
  import opened Names
  import Creators

  /** The editor's own scene objects that never appear in the list. */
  datatype Specials = Specials(grid: Handle, transform: Handle, outline: Handle, clouds: Handle, lensflare: Handle)

  /** `items` are the objects with a row in the list (`sceneItems`), `mixers` the
      running animation mixers, `mixerOf` the mixer an object carries, `materials` the
      meshes whose original material is cached, `hasList` whether the page has the
      list container. */
  datatype Editor = Editor(
    graph: Graph, items: set<Handle>, selected: Option<Handle>,
    mixers: seq<nat>, mixerOf: map<Handle, nat>, materials: set<Handle>, hasList: bool)

  // ---------------------------------------------------------------------------
  // Factories

  /** `${type}_${Date.now()}` (or `${type}Light_${...}`) cut to 15 characters. */
  function StampedName(prefix: string, now: nat): (r: string)
    ensures |r| <= LegacyMaxNameLength && r <= prefix + NatToString(now)
    ensures |prefix| <= LegacyMaxNameLength ==> prefix <= r
  {
    var full := prefix + NatToString(now);
    var r := Truncate(full, LegacyMaxNameLength);
    assert |prefix| <= LegacyMaxNameLength ==> r[..|prefix|] == full[..|prefix|];
    r
  }

  /** `createPrimitive(type)`: a cube, a sphere, or, for every other type name, a
      plane turned flat; named after the type and the time, casting and receiving
      shadows one unit above the ground. */
  function CreatePrimitive(typ: string, now: nat, color: nat, uuid: string): (n: Node)
    ensures n.geometry == Some(if typ == "cube" then BoxGeometry else if typ == "sphere" then SphereGeometry else PlaneGeometry)
    ensures n.rotation.x != 0.0 <==> typ != "cube" && typ != "sphere"
    ensures n.name == StampedName(typ + "_", now) && |n.name| <= LegacyMaxNameLength
    ensures n.position == Vec3(0.0, 1.0, 0.0) && n.castShadow && n.receiveShadow && n.parent.None?
  {
    var geometry := if typ == "cube" then BoxGeometry else if typ == "sphere" then SphereGeometry else PlaneGeometry;
    var rot := if typ == "cube" || typ == "sphere" then Vec3(0.0, 0.0, 0.0) else Vec3(Creators.NegHalfPi, 0.0, 0.0);
    Node(uuid, StampedName(typ + "_", now), "Mesh", None, Some(geometry), None,
         Vec3(0.0, 1.0, 0.0), rot, Vec3(1.0, 1.0, 1.0), true, true, color, 0.0, NoFlags(), None, None, None)
  }

  /** Where the newer factory rejects a type name, the older one builds a plane; where
      both accept it they build the same geometry with the same pose. */
  lemma PrimitiveFallback(typ: string, now: nat, color: nat, uuid: string)
    ensures Creators.CreatePrimitive(typ, uuid).None? ==>
      CreatePrimitive(typ, now, color, uuid).geometry == Some(PlaneGeometry)
    ensures Creators.CreatePrimitive(typ, uuid).Some? ==>
      var a := Creators.CreatePrimitive(typ, uuid).value; var b := CreatePrimitive(typ, now, color, uuid);
      a.geometry == b.geometry && a.position == b.position && a.rotation == b.rotation
  {
  }

  /** A light of the older renderer, its helper, and the helper's own drawing: the
      helper classes of `renderer.js` add a wireframe sphere `Mesh` (point) or a `Line`
      (directional) under themselves. */
  datatype LegacyLight = LegacyLight(light: Node, helper: Node, part: Node)

  /** `createLight(type)`: a point light for `point` and a directional light for every
      other type name, with its helper child, at (2, 4, 2), casting shadows. Only the
      helper is flagged `isHelper`, not the drawing under it. */
  function CreateLight(typ: string, now: nat, uuid: string, helperUuid: string, partUuid: string): (r: LegacyLight)
    ensures r.light.light == Some(if typ == "point" then Point else Directional)
    ensures r.light.name == StampedName(typ + "Light_", now)
    ensures r.light.position == Vec3(2.0, 4.0, 2.0) && r.light.castShadow
    ensures r.helper.flags.isHelper && !r.part.flags.isHelper
    ensures IsMesh(r.part) <==> typ == "point"
  {
    var l := if typ == "point" then Point else Directional;
    var color := if l == Point then Creators.PointLightColor else Creators.DirectionalLightColor;
    var intensity := if l == Point then Creators.PointLightIntensity else Creators.DirectionalLightIntensity;
    var light := Node(uuid, StampedName(typ + "Light_", now), if l == Point then "PointLight" else "DirectionalLight",
                      None, None, Some(l), Vec3(2.0, 4.0, 2.0), Vec3(0.0, 0.0, 0.0), Vec3(1.0, 1.0, 1.0),
                      true, false, color, intensity, NoFlags(), None, None, None);
    var helper := Node(helperUuid, "", "Object3D", None, None, None,
                       Vec3(0.0, 0.0, 0.0), Vec3(0.0, 0.0, 0.0), Vec3(1.0, 1.0, 1.0), false, false,
                       color, 0.0, NoFlags().(isHelper := true), None, None, None);
    var part := Node(partUuid, "", if l == Point then "Mesh" else "Line", None,
                     if l == Point then Some(SphereGeometry) else None, None,
                     Vec3(0.0, 0.0, 0.0), Vec3(0.0, 0.0, 0.0), Vec3(1.0, 1.0, 1.0), false, false,
                     color, 0.0, NoFlags(), None, None, None);
    LegacyLight(light, helper, part)
  }

  /** Both factories build the same kind of light for the type names the newer one
      accepts. */
  lemma LightFallback(typ: string, now: nat, uuid: string, helperUuid: string, partUuid: string)
    ensures Creators.CreateLight(typ, uuid, helperUuid).Some? ==>
      Creators.CreateLight(typ, uuid, helperUuid).value.light.light == CreateLight(typ, now, uuid, helperUuid, partUuid).light.light
    ensures typ != "point" ==> CreateLight(typ, now, uuid, helperUuid, partUuid).light.light == Some(Directional)
  {
  }

  /** `scene.add(light)` for a new light: the light, its helper and the helper's drawing
      take the fresh handles `h`, `hh` and `hp`, each linked to its parent, and the
      light joins the scene's children. */
  function PlaceLight(e: Editor, l: LegacyLight, h: Handle, hh: Handle, hp: Handle): (r: Editor)
    requires h !in e.graph.nodes && hh !in e.graph.nodes && hp !in e.graph.nodes
    requires h != hh && hh != hp && h != hp
    ensures r == e.(graph := r.graph)
    ensures r.graph.nodes.Keys == e.graph.nodes.Keys + {h, hh, hp}
    ensures forall x :: x in e.graph.nodes ==> r.graph.nodes[x] == e.graph.nodes[x]
    ensures r.graph.nodes[hp] == l.part.(parent := Some(hh))
    ensures r.graph.nodes[hh] == l.helper.(parent := Some(h))
    ensures r.graph.nodes[h] == l.light.(parent := Some(SceneRoot))
    ensures forall x :: x in r.graph.children <==> x in e.graph.children || x == h
  {
    var nodes := e.graph.nodes[h := l.light][hh := l.helper.(parent := Some(h))][hp := l.part.(parent := Some(hh))];
    e.(graph := AddToScene(e.graph.(nodes := nodes), h))
  }

  /** Caching a placed light's materials, as the rebuild of the list does for each
      listed child, records the wireframe sphere under a point light's helper, and
      nothing under a directional light's. */
  lemma PlacedLightCache(e: Editor, typ: string, now: nat, uuid: string, helperUuid: string, partUuid: string,
                         h: Handle, hh: Handle, hp: Handle)
    requires h !in e.graph.nodes && hh !in e.graph.nodes && hp !in e.graph.nodes
    requires h != hh && hh != hp && h != hp
    requires hp !in e.materials
    ensures var p := PlaceLight(e, CreateLight(typ, now, uuid, helperUuid, partUuid), h, hh, hp);
      hp in CacheMaterials(p, h).materials <==> typ == "point"
  {
    var p := PlaceLight(e, CreateLight(typ, now, uuid, helperUuid, partUuid), h, hh, hp);
    assert ParentChain(p.graph.nodes, [hp, hh, h]);
    IsDescendantOfChain(p.graph.nodes, [hp, hh, h]);
  }

  // ---------------------------------------------------------------------------
  // Selection

  /** `setSelected(object)`: a part of the transform gizmo is refused; anything else,
      or nothing, becomes the selection. */
  function SetSelected(e: Editor, obj: Option<Handle>, sp: Specials): (r: Editor)
    ensures obj.Some? && IsDescendantOf(e.graph.nodes, obj.value, sp.transform) ==> r == e
    ensures !(obj.Some? && IsDescendantOf(e.graph.nodes, obj.value, sp.transform)) ==> r == e.(selected := obj)
  {
    if obj.Some? && IsDescendantOf(e.graph.nodes, obj.value, sp.transform) then e
    else e.(selected := obj)
  }

  /** The selection is never the gizmo or a part of it. */
  ghost predicate SelectionOffGizmo(e: Editor, sp: Specials)
  {
    e.selected.Some? ==> !IsDescendantOf(e.graph.nodes, e.selected.value, sp.transform)
  }

  lemma SetSelectedKeepsGizmoOut(e: Editor, obj: Option<Handle>, sp: Specials)
    requires SelectionOffGizmo(e, sp)
    ensures SelectionOffGizmo(SetSelected(e, obj, sp), sp)
    ensures SetSelected(e, Some(sp.transform), sp) == e
  {
    IsDescendantOfSpec(e.graph.nodes, sp.transform, sp.transform);
  }

  // ---------------------------------------------------------------------------
  // The scene list

  /** `obj.name || obj.type || 'Object'`. */
  function ListName(n: Node): (r: string)
    ensures 0 < |r| <= LegacyMaxNameLength
    ensures n.name != "" ==> r <= n.name
    ensures n.name == "" && n.typeName != "" ==> r <= n.typeName
  {
    LegacySanitizeName(Some(if n.name != "" then n.name else n.typeName))
  }

  /** `registerSceneObject(obj)`: without the list container, or for an object that
      already has a row, nothing; otherwise the object is flagged an editor object,
      its name is cut to 15 characters, and it gets a row. */
  function Register(e: Editor, h: Handle): (r: Editor)
    requires h in e.graph.nodes
    ensures r.graph.nodes.Keys == e.graph.nodes.Keys && r.graph.children == e.graph.children
    ensures !e.hasList || h in e.items ==> r == e
    ensures e.hasList && h !in e.items ==>
      r.items == e.items + {h} && r.graph.nodes[h].flags.isEditorObject
      && r.graph.nodes[h].name == ListName(e.graph.nodes[h])
      && r.graph.nodes[h] == e.graph.nodes[h].(name := r.graph.nodes[h].name, flags := r.graph.nodes[h].flags)
      && r == e.(graph := r.graph, items := r.items)
    ensures forall x :: x in e.graph.nodes && x != h ==> r.graph.nodes[x] == e.graph.nodes[x]
  {
    if !e.hasList || h in e.items then e
    else
      var n := e.graph.nodes[h];
      var n1 := n.(name := ListName(n), flags := n.flags.(isEditorObject := true));
      e.(graph := e.graph.(nodes := e.graph.nodes[h := n1]), items := e.items + {h})
  }

  /** Registering twice is registering once. */
  lemma RegisterIdempotent(e: Editor, h: Handle)
    requires h in e.graph.nodes
    ensures Register(Register(e, h), h) == Register(e, h)
  {
  }

  /** The rename commit of a list row: the trimmed input, or the current name when the
      input is blank, cut to 15 characters. No uniqueness check is made. */
  function CommitRename(current: string, value: string): (r: string)
    ensures 0 < |r| <= LegacyMaxNameLength
    ensures Trim(value) != "" ==> r <= Trim(value)
    ensures Trim(value) == "" && current != "" ==> r <= current
  {
    LegacySanitizeName(Some(if Trim(value) != "" then Trim(value) else current))
  }

  /** Two objects can end up with the same name. */
  lemma RenameAllowsDuplicates(a: string, b: string)
    requires Trim(a) == Trim(b) && Trim(a) != ""
    ensures CommitRename("x", a) == CommitRename("y", b)
  {
  }

  // ---------------------------------------------------------------------------
  // Removal

  /** `arr.splice(arr.indexOf(x), 1)` when `x` is present: the first `x` goes. */
  function RemoveFirst(s: seq<nat>, x: nat): (r: seq<nat>)
    ensures x !in s ==> r == s
    ensures x in s ==> |r| == |s| - 1 && multiset(r) == multiset(s) - multiset{x}
    decreases |s|
  {
    if |s| == 0 then s
    else if s[0] == x then
      assert s == [s[0]] + s[1..];
      s[1..]
    else
      var r := [s[0]] + RemoveFirst(s[1..], x);
      assert s == [s[0]] + s[1..];
      r
  }

  /** The cached meshes at or below `h`. */
  function CachedBelow(e: Editor, h: Handle): (r: set<Handle>)
    ensures r <= e.materials
    ensures forall c :: c in r <==> c in e.materials && IsDescendantOf(e.graph.nodes, c, h)
  {
    set c | c in e.materials && IsDescendantOf(e.graph.nodes, c, h)
  }

  /** `removeSceneObject(obj)`: nothing for no object; otherwise its mixer stops, it
      leaves its parent and the list, the selection is dropped if it was the object,
      and the cached materials of it and everything below it are forgotten. */
  function RemoveSceneObject(e: Editor, obj: Option<Handle>): (r: Editor)
    ensures obj.None? ==> r == e
    ensures obj.Some? ==>
      var h := obj.value;
      h !in r.items && r.items == e.items - {h}
      && h !in r.graph.children && r.graph == Detach(e.graph, h)
      && (e.selected == Some(h) ==> r.selected.None?) && (e.selected != Some(h) ==> r.selected == e.selected)
      && (h in e.mixerOf ==> r.mixers == RemoveFirst(e.mixers, e.mixerOf[h]))
      && (h !in e.mixerOf ==> r.mixers == e.mixers)
      && r.materials == e.materials - CachedBelow(e, h)
      && h !in r.materials
  {
    match obj
    case None => e
    case Some(h) =>
      IsDescendantOfSpec(e.graph.nodes, h, h);
      var mixers := if h in e.mixerOf then RemoveFirst(e.mixers, e.mixerOf[h]) else e.mixers;
      var selected := if e.selected == Some(h) then None else e.selected;
      Editor(Detach(e.graph, h), e.items - {h}, selected, mixers, e.mixerOf, e.materials - CachedBelow(e, h), e.hasList)
  }

  /** A registered object that is removed has no row, is not selected and no longer
      hangs in the scene; every other row stays. */
  lemma RegisterThenRemove(e: Editor, h: Handle)
    requires h in e.graph.nodes && e.hasList && h !in e.items
    ensures var r := RemoveSceneObject(Register(e, h), Some(h));
      r.items == e.items && r.selected != Some(h) && h !in r.graph.children
  {
  }

  // ---------------------------------------------------------------------------
  // Rebuilding the list

  /** Which top-level children get a row: not one of the editor's own objects and not a
      helper. */
  predicate Listed(g: Graph, sp: Specials, h: Handle)
  {
    h in g.nodes
    && h !in {sp.grid, sp.transform, sp.outline, sp.clouds, sp.lensflare}
    && !g.nodes[h].flags.isHelper
  }

  /** `cacheOriginalMaterials(obj)`: every mesh at or below the object is cached. */
  function CacheMaterials(e: Editor, h: Handle): (r: Editor)
    ensures r == e.(materials := r.materials)
    ensures forall c :: c in r.materials <==>
      c in e.materials || (c in e.graph.nodes && IsMesh(e.graph.nodes[c]) && IsDescendantOf(e.graph.nodes, c, h))
  {
    e.(materials := e.materials + set c | c in e.graph.nodes && IsMesh(e.graph.nodes[c]) && IsDescendantOf(e.graph.nodes, c, h))
  }

  /** One turn of the loop over the children: register and cache a listed child. */
  function RegisterStep(e: Editor, sp: Specials, h: Handle): (r: Editor)
  {
    if Listed(e.graph, sp, h) then CacheMaterials(Register(e, h), h) else e
  }

  /** A turn keeps the nodes, the children, the list container, the selection and
      which nodes are listed; it adds exactly the child's row when it is listed, and it
      changes no other node and no node that already had a row. */
  lemma RegisterStepSpec(e: Editor, sp: Specials, h: Handle)
    requires e.hasList
    ensures var r := RegisterStep(e, sp, h);
      r.graph.nodes.Keys == e.graph.nodes.Keys && r.graph.children == e.graph.children
      && r.hasList && r.selected == e.selected
      && (forall x :: x in r.items <==> x in e.items || (x == h && Listed(e.graph, sp, h)))
      && (forall x :: x in e.graph.nodes ==> (Listed(r.graph, sp, x) <==> Listed(e.graph, sp, x)))
      && (forall x :: x in e.graph.nodes && (x != h || x in e.items) ==> r.graph.nodes[x] == e.graph.nodes[x])
      && (Listed(e.graph, sp, h) && h !in e.items ==>
            r.graph.nodes[h].flags.isEditorObject && |r.graph.nodes[h].name| <= LegacyMaxNameLength)
  {
  }

  /** The loop over the children. */
  function RegisterAll(e: Editor, sp: Specials, hs: seq<Handle>): (r: Editor)
    decreases |hs|
  {
    if |hs| == 0 then e else RegisterAll(RegisterStep(e, sp, hs[0]), sp, hs[1..])
  }

  /** After the loop exactly the listed children have been added to the rows, every
      one of them is flagged with a short name, and nothing else changed. */
  lemma {:induction false} RegisterAllSpec(e: Editor, sp: Specials, hs: seq<Handle>)
    requires e.hasList
    ensures var r := RegisterAll(e, sp, hs);
      r.graph.nodes.Keys == e.graph.nodes.Keys && r.graph.children == e.graph.children
      && r.hasList && r.selected == e.selected
      && (forall x :: x in r.items <==> x in e.items || (x in hs && Listed(e.graph, sp, x)))
      && (forall x :: x in e.graph.nodes && (x !in hs || x in e.items) ==> r.graph.nodes[x] == e.graph.nodes[x])
      && (forall x :: x in hs && Listed(e.graph, sp, x) ==>
            r.graph.nodes[x].flags.isEditorObject || x in e.items)
      && (forall x :: x in hs && Listed(e.graph, sp, x) && x !in e.items ==>
            |r.graph.nodes[x].name| <= LegacyMaxNameLength)
    decreases |hs|
  {
    if |hs| > 0 {
      var h := hs[0];
      var e1 := RegisterStep(e, sp, h);
      RegisterStepSpec(e, sp, h);
      RegisterAllSpec(e1, sp, hs[1..]);
      assert forall x :: x in hs <==> x == h || x in hs[1..];
    }
  }

  /** `rebuildSceneList()`: without the list container, nothing; otherwise the rows
      are dropped and rebuilt for exactly the listed top-level children, each flagged
      as an editor object. */
  function RebuildSceneList(e: Editor, sp: Specials): (r: Editor)
    ensures !e.hasList ==> r == e
    ensures e.hasList ==> forall h :: h in r.items <==> h in e.graph.children && Listed(e.graph, sp, h)
    ensures e.hasList ==> forall h :: h in e.graph.children && Listed(e.graph, sp, h) ==>
      h in r.graph.nodes && r.graph.nodes[h].flags.isEditorObject && |r.graph.nodes[h].name| <= LegacyMaxNameLength
    ensures r.selected == e.selected && r.graph.children == e.graph.children && r.graph.nodes.Keys == e.graph.nodes.Keys
  {
    if !e.hasList then e
    else
      RegisterAllSpec(e.(items := {}), sp, e.graph.children);
      RegisterAll(e.(items := {}), sp, e.graph.children)
  }

  /** Rebuilding gives the grid, the gizmo and helpers no row, whatever the list held
      before. */
  lemma RebuildSkipsEditorObjects(e: Editor, sp: Specials)
    requires e.hasList
    ensures var r := RebuildSceneList(e, sp);
      sp.grid !in r.items && sp.transform !in r.items && sp.outline !in r.items
      && sp.clouds !in r.items && sp.lensflare !in r.items
      && forall h :: h in e.graph.nodes && e.graph.nodes[h].flags.isHelper ==> h !in r.items
  {
  }
}
