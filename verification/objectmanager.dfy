/** The editor's object manager: adding and removing scene objects (with or without
    an undo record), the scene-list registry keyed by uuid, unique naming, inline
    rename, model import bookkeeping, and saving/restoring the object list. */
module ObjectManager {
  import opened Wrappers
  import opened Text
  import opened Names
  import opened SceneGraph
  import opened Creators
  import History

  type Action = History.Action

  /** One scene-list entry: the object it shows and the text of its title. */
  datatype Item = Item(obj: Handle, title: string)

  /** `hasList` is whether the scene-list container exists in the page; without it
      nothing is ever registered. `nextHandle` names the next object created. */
  datatype Manager = Manager(
    graph: Graph, items: map<string, Item>, selected: Option<Handle>,
    counters: map<string, nat>, hasList: bool, nextHandle: Handle)

  ghost predicate Valid(m: Manager)
  {
    SceneGraph.Valid(m.graph)
    && m.nextHandle > SceneRoot
    && (forall h :: h in m.graph.nodes ==> h < m.nextHandle)
    && (forall u :: u in m.items ==> m.items[u].obj in m.graph.nodes)
  }

  function Empty(hasList: bool): (m: Manager)
    ensures Valid(m) && m.items == map[] && m.graph.children == []
  {
    Manager(Graph(map[], []), map[], None, map[], hasList, 1)
  }

  /** The names of the registered objects, read from the live objects. */
  function NamesInUse(m: Manager): set<string>
  {
    set u | u in m.items && m.items[u].obj in m.graph.nodes :: m.graph.nodes[m.items[u].obj].name
  }

  /** The name of the object entry `u` shows. */
  function NameOf(m: Manager, u: string): string
    requires u in m.items
  {
    var o := m.items[u].obj;
    if o in m.graph.nodes then m.graph.nodes[o].name else ""
  }

  lemma NameOfInUse(m: Manager, u: string)
    requires u in m.items && m.items[u].obj in m.graph.nodes
    ensures NameOf(m, u) in NamesInUse(m)
  {
  }

  /** No two registry entries show objects with the same name. */
  ghost predicate DistinctNames(m: Manager)
  {
    forall u, v :: u in m.items && v in m.items && u != v ==> NameOf(m, u) != NameOf(m, v)
  }

  /** What an operation did: the new state, the object it created (if any) and the
      history action it asks the editor to record (if any). */
  datatype Outcome = Outcome(m: Manager, created: Option<Handle>, action: Option<Action>)

  /** `setSelected(obj)`: the selection becomes `obj || null`. */
  function SetSelected(m: Manager, obj: Option<Handle>): (r: Manager)
    ensures r.selected == obj
    ensures r.graph == m.graph && r.items == m.items && r.counters == m.counters
  {
    m.(selected := obj)
  }

  /** Put a new object into the object table under a fresh handle. */
  function Insert(m: Manager, n: Node): (r: (Manager, Handle))
    ensures r.1 == m.nextHandle && r.0.nextHandle == m.nextHandle + 1
    ensures r.0.graph.nodes == m.graph.nodes[r.1 := n] && r.0.graph.children == m.graph.children
    ensures r.0.items == m.items && r.0.selected == m.selected && r.0.counters == m.counters
  {
    var h := m.nextHandle;
    (m.(graph := m.graph.(nodes := m.graph.nodes[h := n]), nextHandle := h + 1), h)
  }

  lemma InsertValid(m: Manager, n: Node)
    requires Valid(m) && n.parent.None?
    ensures Valid(Insert(m, n).0)
    ensures Insert(m, n).1 !in m.graph.nodes
  {
  }

  function AddNodeToScene(m: Manager, h: Handle): (r: Manager)
    requires h in m.graph.nodes
    ensures r.graph == AddToScene(m.graph, h)
    ensures r.items == m.items && r.selected == m.selected && r.counters == m.counters
    ensures r.nextHandle == m.nextHandle && r.hasList == m.hasList
  {
    m.(graph := AddToScene(m.graph, h))
  }

  // ---------------------------------------------------------------------------
  // Registry.

  /** `registerSceneObject(obj)`. Without a list, an unknown object or an empty uuid it
      does nothing. An object whose uuid is already registered only refreshes that
      entry's title (to the object's name when it is non-empty). Otherwise the object
      is marked `isEditorObject` and gets exactly one new entry. */
  function Register(m: Manager, h: Handle): (r: Manager)
    ensures r.graph.nodes.Keys == m.graph.nodes.Keys && r.graph.children == m.graph.children
    ensures r.selected == m.selected && r.counters == m.counters && r.nextHandle == m.nextHandle
    ensures r.hasList == m.hasList
    ensures forall x :: x in m.graph.nodes && x != h ==> r.graph.nodes[x] == m.graph.nodes[x]
    ensures h in m.graph.nodes ==>
      r.graph.nodes[h] == m.graph.nodes[h].(flags := m.graph.nodes[h].flags.(isEditorObject := r.graph.nodes[h].flags.isEditorObject))
    ensures !m.hasList || h !in m.graph.nodes || m.graph.nodes[h].uuid == "" ==> r == m
    ensures m.hasList && h in m.graph.nodes && m.graph.nodes[h].uuid in m.items ==>
      r.graph == m.graph && r.items.Keys == m.items.Keys
      && (forall u :: u in m.items && u != m.graph.nodes[h].uuid ==> r.items[u] == m.items[u])
      && r.items[m.graph.nodes[h].uuid].obj == m.items[m.graph.nodes[h].uuid].obj
    ensures m.hasList && h in m.graph.nodes && m.graph.nodes[h].uuid != "" && m.graph.nodes[h].uuid !in m.items ==>
      r.items == m.items[m.graph.nodes[h].uuid := Item(h, m.graph.nodes[h].name)]
      && r.graph.nodes == m.graph.nodes[h := m.graph.nodes[h].(flags := m.graph.nodes[h].flags.(isEditorObject := true))]
  {
    if !m.hasList || h !in m.graph.nodes || m.graph.nodes[h].uuid == "" then m
    else
      var n := m.graph.nodes[h];
      if n.uuid in m.items then
        var e := m.items[n.uuid];
        m.(items := m.items[n.uuid := e.(title := if n.name != "" then n.name else e.title)])
      else
        var n' := n.(flags := n.flags.(isEditorObject := true));
        m.(graph := m.graph.(nodes := m.graph.nodes[h := n']), items := m.items[n.uuid := Item(h, n.name)])
  }

  /** Registering twice is registering once (up to the refreshed title, which already
      shows the name). */
  lemma RegisterIdempotent(m: Manager, h: Handle)
    requires h in m.graph.nodes ==> m.graph.nodes[h].name != ""
    ensures Register(Register(m, h), h) == Register(m, h)
  {
  }

  lemma RegisterValid(m: Manager, h: Handle)
    requires Valid(m)
    ensures Valid(Register(m, h))
  {
  }

  /** The names shown by the registry after registering an object that was not yet
      registered: the old names plus the new object's. */
  lemma RegisterNamesInUse(m: Manager, h: Handle)
    requires Valid(m) && m.hasList && h in m.graph.nodes && m.graph.nodes[h].uuid != ""
    requires m.graph.nodes[h].uuid !in m.items
    requires forall u :: u in m.items ==> m.items[u].obj != h
    ensures NamesInUse(Register(m, h)) == NamesInUse(m) + {m.graph.nodes[h].name}
  {
    var r := Register(m, h);
    var u0 := m.graph.nodes[h].uuid;
    forall x | x in NamesInUse(r) ensures x in NamesInUse(m) + {m.graph.nodes[h].name} {
      var u :| u in r.items && r.items[u].obj in r.graph.nodes && r.graph.nodes[r.items[u].obj].name == x;
      if u != u0 {
        assert u in m.items && m.items[u].obj != h;
      }
    }
    forall x | x in NamesInUse(m) ensures x in NamesInUse(r) {
      var u :| u in m.items && m.items[u].obj in m.graph.nodes && m.graph.nodes[m.items[u].obj].name == x;
      assert u != u0;
      assert r.items[u] == m.items[u];
    }
    assert r.items[u0].obj == h;
  }

  // ---------------------------------------------------------------------------
  // Adding and removing objects.

  /** The names of the category and type arguments of `add`. */
  const PrimitiveCategory: string := "primitive"
  const LightCategory: string := "light"
  const GameCategory: string := "game"
  const PlayerStartType: string := "player_start"

  /** Fresh identifiers three.js draws when the factories construct objects. */
  datatype Fresh = Fresh(uuid: string, helperUuid: string)

  /** The object `add` would build, before it enters the scene. `marker` stands for the
      Player Start constructor, which the factory module does not provide. */
  datatype Built = NotBuilt | Single(node: Node) | WithHelper(pair: LightPair) | ExistingMarker(h: Handle)

  function Build(m: Manager, typ: string, category: string, ids: Fresh, marker: Node): (r: Built)
    requires !marker.flags.isEditorObject
    ensures r.Single? || r.WithHelper? ==> !RootOf(r).flags.isEditorObject
    ensures r.Single? && category == PrimitiveCategory ==>
      ParsePrimitive(typ).Some? && r.node.geometry == Some(GeometryOf(ParsePrimitive(typ).value))
    ensures r.WithHelper? ==> ParseLight(typ).Some? && r.pair.light.light == ParseLight(typ)
    ensures (r.Single? && category == PrimitiveCategory) || r.WithHelper? ==> RootOf(r).uuid == ids.uuid
    ensures category == PrimitiveCategory ==>
      (r.NotBuilt? <==> ParsePrimitive(typ).None?) && (r.NotBuilt? || r.Single?)
    ensures category == LightCategory ==>
      (r.NotBuilt? <==> ParseLight(typ).None?) && (r.NotBuilt? || r.WithHelper?)
    ensures category == GameCategory && typ == PlayerStartType ==>
      match FindPlayerStart(m.graph, m.graph.children)
      case Some(e) => r == ExistingMarker(e)
      case None => r == Single(marker)
    ensures category == GameCategory && typ != PlayerStartType ==> r.NotBuilt?
    ensures category != PrimitiveCategory && category != LightCategory && category != GameCategory ==> r.NotBuilt?
  {
    if category == PrimitiveCategory then
      match CreatePrimitive(typ, ids.uuid)
      case None => NotBuilt
      case Some(n) => Single(n)
    else if category == LightCategory then
      match CreateLight(typ, ids.uuid, ids.helperUuid)
      case None => NotBuilt
      case Some(p) => WithHelper(p)
    else if category == GameCategory then
      if typ != PlayerStartType then NotBuilt
      else match FindPlayerStart(m.graph, m.graph.children)
        case Some(e) => ExistingMarker(e)
        case None => Single(marker)
    else NotBuilt
  }

  /** Put a built object (and a light's helper child) into the scene. */
  function Place(m: Manager, b: Built): (r: (Manager, Handle))
    requires b.Single? || b.WithHelper?
    ensures r.1 == m.nextHandle && r.1 in r.0.graph.nodes
    ensures |r.0.graph.children| > 0 && r.0.graph.children[|r.0.graph.children| - 1] == r.1
    ensures forall x :: x in r.0.graph.children <==> x in m.graph.children || x == r.1
    ensures r.0.items == m.items && r.0.selected == m.selected && r.0.counters == m.counters
    ensures r.0.hasList == m.hasList
    ensures r.0.graph.nodes[r.1] == RootOf(b).(parent := Some(SceneRoot))
    ensures m.graph.nodes.Keys <= r.0.graph.nodes.Keys
    ensures r.0.nextHandle > m.nextHandle
    ensures forall x :: x in m.graph.nodes && x < m.nextHandle ==> r.0.graph.nodes[x] == m.graph.nodes[x]
    ensures forall x :: x in r.0.graph.nodes ==> x in m.graph.nodes || x >= m.nextHandle
  {
    var (m1, h) := Insert(m, RootOf(b));
    var m2 := AddNodeToScene(m1, h);
    if b.WithHelper? then
      var (m3, _) := Insert(m2, b.pair.helper.(parent := Some(h)));
      (m3, h)
    else (m2, h)
  }

  function RootOf(b: Built): Node
    requires b.Single? || b.WithHelper?
  {
    if b.Single? then b.node else b.pair.light
  }

  /** `add(type, category, suppressHistory)`. An unknown category or a type outside the
      category's allowed set returns nothing and changes nothing; a second Player Start
      only selects the existing one. Otherwise the object enters the scene; unless
      suppressed it is then given a unique name, registered, selected and exactly one
      `Added` action is returned for the history. */
  function Add(m: Manager, typ: string, category: string, suppress: bool, ids: Fresh, marker: Node): (r: Outcome)
    requires !marker.flags.isEditorObject
    ensures var b := Build(m, typ, category, ids, marker);
      b.NotBuilt? ==> r == Outcome(m, None, None)
    ensures var b := Build(m, typ, category, ids, marker);
      b.ExistingMarker? ==> r == Outcome(SetSelected(m, Some(b.h)), None, None)
    ensures r.created.Some? ==> Entered(m, r, suppress)
    ensures r.created.Some? && category == PrimitiveCategory ==>
      (ParsePrimitive(typ).Some?
       && r.m.graph.nodes[r.created.value].geometry == Some(GeometryOf(ParsePrimitive(typ).value)))
    ensures r.created.Some? && category == LightCategory ==>
      (ParseLight(typ).Some? && r.m.graph.nodes[r.created.value].light == ParseLight(typ))
    ensures r.created.Some? && (category == PrimitiveCategory || category == LightCategory) ==>
      r.m.graph.nodes[r.created.value].uuid == ids.uuid
    ensures r.created.None? ==> r.action.None? && r.m.graph == m.graph && r.m.items == m.items
    ensures m.graph.nodes.Keys <= r.m.graph.nodes.Keys && r.m.nextHandle >= m.nextHandle
    ensures r.m.hasList == m.hasList
    ensures forall x :: x in r.m.graph.children <==> x in m.graph.children || (r.created.Some? && x == r.created.value)
    ensures r.created.Some? ==> r.m.nextHandle > r.created.value
    ensures forall x :: x in m.graph.nodes && x < m.nextHandle ==> r.m.graph.nodes[x] == m.graph.nodes[x]
    ensures forall x :: x in r.m.graph.nodes ==> x in m.graph.nodes || x >= m.nextHandle
  {
    var b := Build(m, typ, category, ids, marker);
    if b.NotBuilt? then Outcome(m, None, None)
    else if b.ExistingMarker? then Outcome(SetSelected(m, Some(b.h)), None, None)
    else Enter(m, b, suppress)
  }

  /** What `add` promises about an object it created: it is the newest top-level child
      under the next handle; a suppressed add leaves registry, selection and counters
      alone and records nothing; otherwise the object is selected under a name no
      registered object had, and one `Added` action is returned. */
  ghost predicate Entered(m: Manager, r: Outcome, suppress: bool)
    requires r.created.Some?
  {
    r.created.value == m.nextHandle && r.created.value in r.m.graph.nodes
    && |r.m.graph.children| > 0 && r.m.graph.children[|r.m.graph.children| - 1] == r.created.value
    && (suppress ==>
         r.action.None? && r.m.items == m.items && r.m.selected == m.selected
         && r.m.counters == m.counters && !r.m.graph.nodes[r.created.value].flags.isEditorObject)
    && (!suppress ==>
         r.action == Some(History.Added(r.created.value))
         && r.m.selected == r.created
         && r.m.graph.nodes[r.created.value].name !in NamesInUse(m))
  }

  /** A built object enters the scene, then is announced unless suppressed. */
  function Enter(m: Manager, b: Built, suppress: bool): (r: Outcome)
    requires b.Single? || b.WithHelper?
    requires !RootOf(b).flags.isEditorObject
    ensures r.created.Some? && Entered(m, r, suppress)
    ensures r.m.graph.nodes[r.created.value].geometry == RootOf(b).geometry
    ensures r.m.graph.nodes[r.created.value].light == RootOf(b).light
    ensures r.m.graph.nodes[r.created.value].uuid == RootOf(b).uuid
    ensures m.graph.nodes.Keys <= r.m.graph.nodes.Keys && r.m.nextHandle >= m.nextHandle
    ensures r.m.hasList == m.hasList
    ensures forall x :: x in r.m.graph.children <==> x in m.graph.children || x == r.created.value
    ensures r.m.nextHandle > r.created.value
    ensures forall x :: x in m.graph.nodes && x < m.nextHandle ==> r.m.graph.nodes[x] == m.graph.nodes[x]
    ensures forall x :: x in r.m.graph.nodes ==> x in m.graph.nodes || x >= m.nextHandle
  {
    var (m1, h) := Place(m, b);
    if suppress then Outcome(m1, Some(h), None)
    else Outcome(Announce(m1, h, NamesInUse(m), m.counters), Some(h), Some(History.Added(h)))
  }

  /** The unsuppressed tail of `add`: a unique name (against the names `taken` before
      the object arrived), registration and selection. */
  function Announce(m: Manager, h: Handle, taken: set<string>, counters: map<string, nat>): (r: Manager)
    requires h in m.graph.nodes
    ensures r.graph.nodes.Keys == m.graph.nodes.Keys && r.graph.children == m.graph.children
    ensures r.hasList == m.hasList && r.nextHandle == m.nextHandle && r.selected == Some(h)
    ensures r.graph.nodes[h].name !in taken
    ensures r.graph.nodes[h].geometry == m.graph.nodes[h].geometry && r.graph.nodes[h].light == m.graph.nodes[h].light
    ensures r.graph.nodes[h].uuid == m.graph.nodes[h].uuid
    ensures forall x :: x in m.graph.nodes && x != h ==> r.graph.nodes[x] == m.graph.nodes[x]
  {
    var n := m.graph.nodes[h];
    var base := SanitizeName(Some(if n.name != "" then n.name else n.typeName));
    var named := GenerateUniqueName(base, taken, counters);
    var m2 := m.(graph := m.graph.(nodes := m.graph.nodes[h := n.(name := named.name)]), counters := named.counters);
    SetSelected(Register(m2, h), Some(h))
  }

  /** `remove(obj, suppressHistory)`: no-op on null. Otherwise one `Removed` action
      unless suppressed; the object leaves its parent, its registry entry is dropped,
      and a selection of it is cleared. */
  function Remove(m: Manager, obj: Option<Handle>, suppress: bool): (r: Outcome)
    ensures obj.None? ==> r == Outcome(m, None, None)
    ensures obj.Some? ==> (r.action.Some? <==> !suppress) && (r.action.Some? ==> r.action.value == History.Removed(obj.value))
    ensures obj.Some? ==> r.m.graph == Detach(m.graph, obj.value) && r.created.None?
    ensures obj.Some? && obj.value in m.graph.nodes ==> r.m.items == m.items - {m.graph.nodes[obj.value].uuid}
    ensures obj.Some? ==> (r.m.selected.None? <==> m.selected.None? || m.selected == obj)
    ensures obj.Some? ==> m.selected != obj ==> r.m.selected == m.selected
    ensures r.m.counters == m.counters && r.m.nextHandle == m.nextHandle && r.m.hasList == m.hasList
  {
    match obj
    case None => Outcome(m, None, None)
    case Some(h) =>
      var items := if h in m.graph.nodes then m.items - {m.graph.nodes[h].uuid} else m.items;
      var sel := if m.selected == Some(h) then None else m.selected;
      var m1 := m.(graph := Detach(m.graph, h), items := items, selected := sel);
      Outcome(m1, None, if suppress then None else Some(History.Removed(h)))
  }

  lemma RemoveValid(m: Manager, h: Handle, suppress: bool)
    requires Valid(m)
    ensures Valid(Remove(m, Some(h), suppress).m)
  {
    DetachValid(m.graph, h);
  }

  /** Put an object back as undo of a removal and redo of an addition do: into the
      scene, registered, selected. */
  function Restore(m: Manager, h: Handle): (r: Manager)
    requires h in m.graph.nodes
    ensures r.selected == Some(h)
    ensures r.graph.nodes.Keys == m.graph.nodes.Keys && r.hasList == m.hasList
    ensures h in r.graph.children
    ensures m.hasList && m.graph.nodes[h].uuid != "" ==> m.graph.nodes[h].uuid in r.items
  {
    SetSelected(Register(AddNodeToScene(m, h), h), Some(h))
  }

  /** Removing an object and then restoring it puts it back in the scene, in the
      registry and in the selection. */
  lemma RemoveThenRestore(m: Manager, h: Handle)
    requires Valid(m) && m.hasList && h in m.graph.nodes && m.graph.nodes[h].uuid != ""
    ensures var r := Restore(Remove(m, Some(h), true).m, h);
      h in r.graph.children && r.selected == Some(h)
      && r.items[m.graph.nodes[h].uuid] == Item(h, m.graph.nodes[h].name)
      && r.graph.nodes[h].name == m.graph.nodes[h].name
  {
  }

  // ---------------------------------------------------------------------------
  // Rename.

  /** The names of the registered objects other than those with uuid `uuid`. */
  function OtherNames(m: Manager, uuid: string): set<string>
  {
    set u | u in m.items && m.items[u].obj in m.graph.nodes && m.graph.nodes[m.items[u].obj].uuid != uuid
      :: m.graph.nodes[m.items[u].obj].name
  }

  /** `_beginRename(obj)` followed by `finish(commit)` with the edited `value`: Enter
      and blur commit, Escape does not. The object's entry, if any, is pointed at the
      object again. */
  function Rename(m: Manager, h: Handle, value: string, commit: bool): (r: Manager)
    requires h in m.graph.nodes
    ensures h in r.graph.nodes && r.graph.children == m.graph.children && r.graph.nodes.Keys == m.graph.nodes.Keys
    ensures forall x :: x in m.graph.nodes && x != h ==> r.graph.nodes[x] == m.graph.nodes[x]
    ensures !commit || Trim(value) == "" ==> r.graph.nodes[h] == m.graph.nodes[h] && r.counters == m.counters
    ensures commit && Trim(value) != "" ==> r.graph.nodes[h].name !in OtherNames(m, m.graph.nodes[h].uuid)
    ensures commit && Trim(value) != "" && SanitizeName(Some(Trim(value))) !in OtherNames(m, m.graph.nodes[h].uuid) ==>
      r.graph.nodes[h].name == SanitizeName(Some(Trim(value))) && r.counters == m.counters
  {
    var n := m.graph.nodes[h];
    var named := FinishRename(n.name, value, commit, OtherNames(m, n.uuid), m.counters);
    var m1 := m.(graph := m.graph.(nodes := m.graph.nodes[h := n.(name := named.name)]), counters := named.counters);
    if n.uuid in m1.items then m1.(items := m1.items[n.uuid := m1.items[n.uuid].(obj := h)]) else m1
  }

  // ---------------------------------------------------------------------------
  // Model import (`loadModel`), with the file loader as an input: `files` maps the
  // paths that load successfully to the object the loader produces.

  datatype LoadError = EmptyPath | UnsupportedFormat(ext: string) | LoadFailed

  /** `filePath.split('.').pop().toLowerCase()`. */
  function Extension(path: string): string
  {
    ToLower(AfterLast(path, '.'))
  }

  function LoadModel(m: Manager, path: string, suppress: bool, files: map<string, Node>): (r: Result<Outcome, LoadError>)
    ensures path == "" ==> r == Err(EmptyPath)
    ensures path != "" && Extension(path) != "glb" && Extension(path) != "gltf" ==> r == Err(UnsupportedFormat(Extension(path)))
    ensures path != "" && (Extension(path) == "glb" || Extension(path) == "gltf") && path !in files ==> r == Err(LoadFailed)
    ensures r.Ok? ==> r.value.created == Some(m.nextHandle) && m.nextHandle in r.value.m.graph.nodes
    ensures r.Ok? ==>
      (var n := r.value.m.graph.nodes[m.nextHandle];
       n.flags.isModel && n.modelPath == Some(path) && n.physics == Some(Physics(true, Some(1.0)))
       && n.name !in NamesInUse(m))
    ensures r.Ok? ==> (r.value.action.Some? <==> !suppress) && (suppress ==> r.value.m.items == m.items)
    ensures r.Ok? ==> m.graph.nodes.Keys <= r.value.m.graph.nodes.Keys && r.value.m.nextHandle > m.nextHandle
    ensures r.Ok? ==> r.value.m.hasList == m.hasList
    ensures r.Ok? ==> forall x :: x in r.value.m.graph.children <==> x in m.graph.children || x == m.nextHandle
  {
    if path == "" then Err(EmptyPath)
    else if Extension(path) != "glb" && Extension(path) != "gltf" then Err(UnsupportedFormat(Extension(path)))
    else if path !in files then Err(LoadFailed)
    else
      var loaded := files[path];
      var stem := BeforeFirst(AfterLast(path, '\\'), '.');
      var base := SanitizeName(Some(if loaded.name != "" then loaded.name else if stem != "" then stem else "Model"));
      var named := GenerateUniqueName(base, NamesInUse(m), m.counters);
      var n := loaded.(flags := loaded.flags.(isModel := true), modelPath := Some(path),
                       name := named.name, physics := Some(Physics(true, Some(1.0))));
      var (m2, h) := Place(m.(counters := named.counters), Single(n));
      if suppress then Ok(Outcome(m2, Some(h), None))
      else Ok(Outcome(SetSelected(Register(m2, h), Some(h)), Some(h), Some(History.Added(h))))
  }

  // ---------------------------------------------------------------------------
  // Scene list rebuild.

  /** The title `rebuildSceneListUI` starts from: `child.name || child.type || 'Object'`. */
  function SeedName(n: Node): string
  {
    if n.name != "" then n.name else if n.typeName != "" then n.typeName else DefaultName
  }

  /** Two nodes are the same kind of object: the same geometry and the same light. */
  predicate SameKind(a: Node, b: Node)
  {
    a.geometry == b.geometry && a.light == b.light
  }

  /** One step of `rebuildSceneListUI`: helpers are skipped; editor objects and Player
      Start markers get a fresh unique name and are registered. */
  function RebuildStep(m: Manager, h: Handle): (r: Manager)
    ensures r.graph.nodes.Keys == m.graph.nodes.Keys && r.graph.children == m.graph.children
    ensures r.hasList == m.hasList && r.nextHandle == m.nextHandle && r.selected == m.selected
    ensures forall x :: x in m.graph.nodes && x != h ==> r.graph.nodes[x] == m.graph.nodes[x]
    ensures forall x :: x in m.graph.nodes ==> SameKind(r.graph.nodes[x], m.graph.nodes[x])
  {
    if h !in m.graph.nodes then m
    else
      var n := m.graph.nodes[h];
      if n.flags.isHelper then m
      else if n.flags.isEditorObject || n.flags.isPlayerStart then
        var named := GenerateUniqueName(SanitizeName(Some(SeedName(n))), NamesInUse(m), m.counters);
        var m1 := m.(graph := m.graph.(nodes := m.graph.nodes[h := n.(name := named.name)]), counters := named.counters);
        Register(m1, h)
      else m
  }

  function RebuildFrom(m: Manager, hs: seq<Handle>): (r: Manager)
    ensures r.graph.nodes.Keys == m.graph.nodes.Keys && r.graph.children == m.graph.children
    ensures r.hasList == m.hasList && r.nextHandle == m.nextHandle && r.selected == m.selected
    ensures forall x :: x in m.graph.nodes ==> SameKind(r.graph.nodes[x], m.graph.nodes[x])
    decreases |hs|
  {
    if |hs| == 0 then m else RebuildFrom(RebuildStep(m, hs[0]), hs[1..])
  }

  /** `rebuildSceneListUI`: without a list it does nothing; otherwise it empties the
      registry and the name counters and walks the top-level children in order. */
  function Rebuild(m: Manager): (r: Manager)
    ensures !m.hasList ==> r == m
    ensures r.graph.nodes.Keys == m.graph.nodes.Keys && r.graph.children == m.graph.children
    ensures forall x :: x in m.graph.nodes ==> SameKind(r.graph.nodes[x], m.graph.nodes[x])
  {
    if !m.hasList then m
    else RebuildFrom(m.(items := map[], counters := map[]), m.graph.children)
  }

  /** Every entry shows an object of the table. */
  ghost predicate EntriesLive(m: Manager)
  {
    forall u :: u in m.items ==> m.items[u].obj in m.graph.nodes
  }

  /** No entry shows `h`. */
  ghost predicate Unshown(m: Manager, h: Handle)
  {
    forall u :: u in m.items ==> m.items[u].obj != h
  }

  /** Renaming an object no entry shows changes no entry's name. */
  lemma RenameUnshown(m: Manager, h: Handle, name: string, counters: map<string, nat>)
    requires h in m.graph.nodes && Unshown(m, h)
    ensures var m1 := m.(graph := m.graph.(nodes := m.graph.nodes[h := m.graph.nodes[h].(name := name)]), counters := counters);
      m1.items == m.items && (forall u :: u in m.items ==> NameOf(m1, u) == NameOf(m, u))
      && NamesInUse(m1) == NamesInUse(m)
  {
    var m1 := m.(graph := m.graph.(nodes := m.graph.nodes[h := m.graph.nodes[h].(name := name)]), counters := counters);
    forall u | u in m.items
      ensures m1.items[u].obj in m1.graph.nodes <==> m.items[u].obj in m.graph.nodes
      ensures m.items[u].obj in m.graph.nodes ==> m1.graph.nodes[m1.items[u].obj] == m.graph.nodes[m.items[u].obj]
    {
    }
  }

  /** Registering an object whose name no entry shows keeps the names distinct; every
      entry afterwards is an old one or shows that object. */
  lemma RegisterFreshDistinct(m: Manager, h: Handle)
    requires EntriesLive(m) && DistinctNames(m) && Unshown(m, h)
    requires h in m.graph.nodes && m.graph.nodes[h].name !in NamesInUse(m)
    ensures var r := Register(m, h);
      EntriesLive(r) && DistinctNames(r)
      && (forall u :: u in r.items ==> u in m.items || r.items[u].obj == h)
      && (forall u :: u in m.items ==> u in r.items && r.items[u].obj == m.items[u].obj)
  {
    var r := Register(m, h);
    var n := m.graph.nodes[h];
    if m.hasList && n.uuid != "" && n.uuid !in m.items {
      var flagged := n.(flags := n.flags.(isEditorObject := true));
      assert r.items == m.items[n.uuid := Item(h, n.name)];
      assert r.graph.nodes == m.graph.nodes[h := flagged];
      forall u | u in m.items ensures NameOf(r, u) == NameOf(m, u) && NameOf(m, u) in NamesInUse(m) {
        var o := m.items[u].obj;
        assert u != n.uuid && r.items[u] == m.items[u] && o != h;
        assert r.graph.nodes[o] == m.graph.nodes[o];
        NameOfInUse(m, u);
      }
      assert NameOf(r, n.uuid) == n.name;
      forall u, v | u in r.items && v in r.items && u != v ensures NameOf(r, u) != NameOf(r, v) {
        if u != n.uuid && v != n.uuid {
          assert NameOf(m, u) != NameOf(m, v);
        }
      }
    } else {
      assert r.items.Keys == m.items.Keys && r.graph.nodes.Keys == m.graph.nodes.Keys;
      forall u | u in m.items ensures NameOf(r, u) == NameOf(m, u) {
        assert r.items[u].obj == m.items[u].obj && m.items[u].obj != h;
      }
    }
  }

  /** One rebuild step keeps the registered names pairwise distinct, as long as the
      object being named is not yet shown by any entry. */
  lemma RebuildStepDistinct(m: Manager, h: Handle)
    requires EntriesLive(m) && DistinctNames(m) && Unshown(m, h)
    ensures var r := RebuildStep(m, h);
      EntriesLive(r) && DistinctNames(r)
      && (forall u :: u in r.items ==> u in m.items || r.items[u].obj == h)
      && (forall u :: u in m.items ==> u in r.items && r.items[u].obj == m.items[u].obj)
  {
    if h in m.graph.nodes {
      var n := m.graph.nodes[h];
      if !n.flags.isHelper && (n.flags.isEditorObject || n.flags.isPlayerStart) {
        var named := GenerateUniqueName(SanitizeName(Some(SeedName(n))), NamesInUse(m), m.counters);
        RenameUnshown(m, h, named.name, named.counters);
        var m1 := m.(graph := m.graph.(nodes := m.graph.nodes[h := n.(name := named.name)]), counters := named.counters);
        RegisterFreshDistinct(m1, h);
      }
    }
  }

  lemma {:induction false} RebuildFromDistinct(m: Manager, hs: seq<Handle>)
    requires EntriesLive(m) && DistinctNames(m)
    requires forall i, j :: 0 <= i < j < |hs| ==> hs[i] != hs[j]
    requires forall i :: 0 <= i < |hs| ==> Unshown(m, hs[i])
    ensures DistinctNames(RebuildFrom(m, hs))
    decreases |hs|
  {
    if |hs| > 0 {
      RebuildStepDistinct(m, hs[0]);
      var m1 := RebuildStep(m, hs[0]);
      forall i | 0 <= i < |hs[1..]| ensures Unshown(m1, hs[1..][i]) {
        assert hs[1..][i] == hs[i + 1] && hs[i + 1] != hs[0];
        assert Unshown(m, hs[i + 1]);
      }
      RebuildFromDistinct(m1, hs[1..]);
    }
  }

  /** After a rebuild no two scene-list entries show the same name, whatever names the
      objects had before. */
  lemma RebuildDistinctNames(m: Manager)
    requires SceneGraph.Valid(m.graph) && m.hasList
    ensures DistinctNames(Rebuild(m))
  {
    var m0 := m.(items := map[], counters := map[]);
    assert forall i :: 0 <= i < |m.graph.children| ==> Unshown(m0, m.graph.children[i]);
    RebuildFromDistinct(m0, m.graph.children);
  }

  // ---------------------------------------------------------------------------
  // Saving and restoring the object list.

  /** `serializeScene` as written: the editor objects among the top-level children, in
      order. `geometryType` is copied from `userData.primitiveType` and `lightType` from
      `userData.lightType`, which no factory sets, so neither ever appears. */
  function SerializeNode(n: Node): (r: Record)
    ensures r.geometryType.None? && r.lightType.None?
    ensures r.uuid == Some(n.uuid) && r.name == Some(n.name) && r.isLight == n.light.Some?
  {
    Record(Some(n.uuid), Some(n.name), Some(n.typeName), None, None, None,
           Some(n.position), Some(n.rotation), Some(n.scale),
           n.flags.isModel, if n.flags.isModel then n.modelPath else None,
           n.light.Some?, n.flags.isPlayerStart, n.physics, n.playerSettings,
           if n.light.Some? then Some(n.color) else None,
           if n.light.Some? then Some(n.intensity) else None,
           if n.light.Some? then Some(n.castShadow) else None)
  }

  /** The same record with the object's primitive and light type written out. */
  function SerializeNodeFixed(n: Node): (r: Record)
    ensures n.light.None? && n.geometry.Some? && n.geometry.value != OtherGeometry ==>
      r.geometryType.Some? && ParsePrimitive(r.geometryType.value).Some?
    ensures n.light.Some? ==> r.lightType == Some(LightName(n.light.value))
    ensures r.uuid == Some(n.uuid) && r.name == Some(n.name) && r.isLight == n.light.Some?
  {
    var geometryType := match n.geometry
      case Some(BoxGeometry) => Some("cube")
      case Some(SphereGeometry) => Some("sphere")
      case Some(PlaneGeometry) => Some("plane")
      case _ => None;
    SerializeNode(n).(geometryType := if n.light.None? then geometryType else None,
                      lightType := if n.light.Some? then Some(LightName(n.light.value)) else None)
  }

  function EditorObjects(g: Graph, hs: seq<Handle>): (r: seq<Handle>)
    ensures |r| <= |hs|
    ensures forall h :: h in r <==> h in hs && h in g.nodes && g.nodes[h].flags.isEditorObject
  {
    if |hs| == 0 then []
    else if hs[0] in g.nodes && g.nodes[hs[0]].flags.isEditorObject then [hs[0]] + EditorObjects(g, hs[1..])
    else EditorObjects(g, hs[1..])
  }

  function SerializeScene(m: Manager, fixed: bool): (r: seq<Record>)
    ensures var es := EditorObjects(m.graph, m.graph.children);
      |r| == |es| && forall i :: 0 <= i < |r| ==>
        (es[i] in m.graph.nodes &&
         r[i] == if fixed then SerializeNodeFixed(m.graph.nodes[es[i]]) else SerializeNode(m.graph.nodes[es[i]]))
  {
    var es := EditorObjects(m.graph, m.graph.children);
    seq(|es|, i requires 0 <= i < |es| =>
      if fixed then SerializeNodeFixed(m.graph.nodes[es[i]]) else SerializeNode(m.graph.nodes[es[i]]))
  }

  /** Every built-in object (not a model, not a Player Start) saved by `serializeScene`
      as written is skipped when the save is loaded: its record carries no primitive
      or light type, so `add` is called with an empty type and creates nothing. */
  lemma SerializeAsWrittenDropsBuiltins(m: Manager, n: Node, ids: Fresh, marker: Node, files: map<string, Node>)
    requires !marker.flags.isEditorObject
    requires !n.flags.isModel && !n.flags.isPlayerStart
    ensures CreateFromRecord(m, SerializeNode(n), ids, marker, files).created.None?
  {
    var d := SerializeNode(n);
    assert ParsePrimitive("").None? && ParseLight("").None?;
    assert Build(m, "", if d.isLight then LightCategory else PrimitiveCategory, ids, marker).NotBuilt?;
  }

  /** A cube saved as written is lost on reload. */
  lemma SerializeAsWrittenLosesCube(m: Manager, ids: Fresh, marker: Node, files: map<string, Node>)
    requires !marker.flags.isEditorObject
    ensures CreatePrimitive("cube", "c").Some?
    ensures CreateFromRecord(m, SerializeNode(CreatePrimitive("cube", "c").value), ids, marker, files).created.None?
  {
    SerializeAsWrittenDropsBuiltins(m, CreatePrimitive("cube", "c").value, ids, marker, files);
  }

  /** With the types written out, every built-in primitive or light is recreated on
      reload with the same geometry or the same kind of light. */
  lemma SerializeFixedKeepsBuiltins(m: Manager, n: Node, ids: Fresh, marker: Node, files: map<string, Node>)
    requires !marker.flags.isEditorObject
    requires !n.flags.isModel && !n.flags.isPlayerStart
    requires n.light.Some? || (n.geometry.Some? && n.geometry.value != OtherGeometry)
    ensures var o := CreateFromRecord(m, SerializeNodeFixed(n), ids, marker, files);
      o.created.Some?
      && (n.light.Some? ==> o.m.graph.nodes[o.created.value].light == n.light)
      && (n.light.None? ==> o.m.graph.nodes[o.created.value].geometry == n.geometry)
  {
    var d := SerializeNodeFixed(n);
    if n.light.Some? {
      TypeNamesRoundTrip(Cube, n.light.value);
    } else {
      var p := ParsePrimitive(d.geometryType.value).value;
      assert GeometryOf(p) == n.geometry.value;
    }
  }

  /** The input of `deserializeScene`: the object list, or something that is not an array. */
  datatype SceneData = Objects(records: seq<Record>) | NotAnArray

  /** Remove every editor object among the top-level children without history. */
  function RemoveEditorObjects(m: Manager, hs: seq<Handle>): (r: Manager)
    ensures r.counters == m.counters && r.nextHandle == m.nextHandle && r.hasList == m.hasList
    ensures r.graph.nodes.Keys == m.graph.nodes.Keys
    ensures forall x :: x in m.graph.nodes ==> r.graph.nodes[x].(parent := None) == m.graph.nodes[x].(parent := None)
    ensures forall x :: x in r.graph.children <==>
      x in m.graph.children && !(x in hs && x in m.graph.nodes && m.graph.nodes[x].flags.isEditorObject)
    decreases |hs|
  {
    if |hs| == 0 then m
    else RemoveEditorObjects(RemoveIfEditor(m, hs[0]), hs[1..])
  }

  function RemoveIfEditor(m: Manager, h: Handle): (r: Manager)
    ensures r.counters == m.counters && r.nextHandle == m.nextHandle && r.hasList == m.hasList
    ensures r.graph.nodes.Keys == m.graph.nodes.Keys
    ensures forall x :: x in m.graph.nodes ==> r.graph.nodes[x].(parent := None) == m.graph.nodes[x].(parent := None)
    ensures forall x :: x in r.graph.children <==>
      x in m.graph.children && !(x == h && h in m.graph.nodes && m.graph.nodes[h].flags.isEditorObject)
  {
    if h in m.graph.nodes && m.graph.nodes[h].flags.isEditorObject then Remove(m, Some(h), true).m else m
  }

  /** The saved properties `deserializeScene` copies onto a created object. */
  function ApplyRecord(n: Node, d: Record): (r: Node)
    ensures r.uuid == d.uuid.GetOr("") && r.name == d.name.GetOr("")
    ensures d.position.Some? ==> r.position == d.position.value
    ensures d.position.None? ==> r.position == n.position
    ensures r.flags == n.flags && r.light == n.light && r.geometry == n.geometry
  {
    var n1 := n.(uuid := d.uuid.GetOr(""), name := d.name.GetOr(""),
                 position := d.position.GetOr(n.position), rotation := d.rotation.GetOr(n.rotation),
                 scale := d.scale.GetOr(n.scale),
                 physics := if d.physics.Some? then d.physics else n.physics,
                 playerSettings := if d.playerSettings.Some? then d.playerSettings else n.playerSettings);
    if d.isLight then
      n1.(color := if d.color.Some? && d.color.value != 0 then d.color.value else n1.color,
          intensity := d.intensity.GetOr(n1.intensity),
          castShadow := d.castShadow.GetOr(n1.castShadow))
    else n1
  }

  /** `objData.lightType || objData.geometryType`: the type asked for, whatever the
      category. A light type wins when it is present and not empty, so a record
      flagged as a primitive that carries a light type asks for that light type
      among the primitives (and creates nothing). */
  function RecordType(d: Record): (r: string)
    ensures d.lightType.Some? && d.lightType.value != "" ==> r == d.lightType.value
    ensures (d.lightType.None? || d.lightType == Some("")) && d.geometryType.Some? ==> r == d.geometryType.value
    ensures d.lightType.None? && d.geometryType.None? ==> r == ""
  {
    if d.lightType.Some? && d.lightType.value != "" then d.lightType.value else d.geometryType.GetOr("")
  }

  /** Create the object one record describes, all without history. `ids` supplies
      the identifiers three.js would draw; `files` is the model loader. */
  function CreateFromRecord(m: Manager, d: Record, ids: Fresh, marker: Node, files: map<string, Node>): (r: Outcome)
    requires !marker.flags.isEditorObject
    ensures r.action.None?
    ensures r.created.Some? ==> r.created.value == m.nextHandle && r.created.value in r.m.graph.nodes
    ensures d.isModel && d.modelPath.Some? && d.modelPath.value != "" && LoadModel(m, d.modelPath.value, true, files).Err? ==>
      r == Outcome(m, None, None)
    ensures !(d.isModel && d.modelPath.Some? && d.modelPath.value != "") && !d.isPlayerStart ==>
      r == Add(m, RecordType(d), if d.isLight then LightCategory else PrimitiveCategory, true, ids, marker)
    ensures (!(d.isModel && d.modelPath.Some? && d.modelPath.value != "") && !d.isPlayerStart
             && d.isLight && r.created.Some?) ==> ParseLight(RecordType(d)).Some?
    ensures (!(d.isModel && d.modelPath.Some? && d.modelPath.value != "") && !d.isPlayerStart
             && !d.isLight && r.created.Some?) ==> ParsePrimitive(RecordType(d)).Some?
    ensures m.graph.nodes.Keys <= r.m.graph.nodes.Keys && r.m.nextHandle >= m.nextHandle
    ensures r.m.hasList == m.hasList
    ensures forall x :: x in r.m.graph.children <==> x in m.graph.children || (r.created.Some? && x == r.created.value)
  {
    if d.isModel && d.modelPath.Some? && d.modelPath.value != "" then
      match LoadModel(m, d.modelPath.value, true, files)
      case Err(_) => Outcome(m, None, None)
      case Ok(o) => o
    else if d.isPlayerStart then Add(m, PlayerStartType, GameCategory, true, ids, marker)
    else
      Add(m, RecordType(d), if d.isLight then LightCategory else PrimitiveCategory, true, ids, marker)
  }

  /** One pass of the loop of `deserializeScene`: create the object the record
      describes and, when one was created, copy the saved properties onto it. The new
      object is a top-level child under the next handle and carries the record's
      identifier, name, position and flags; a record that creates nothing leaves the
      scene graph as it was. */
  function DeserializeOne(m: Manager, d: Record, ids: Fresh, marker: Node, files: map<string, Node>): (r: Manager)
    requires !marker.flags.isEditorObject
    ensures var o := CreateFromRecord(m, d, ids, marker, files);
      o.created.None? ==> r.graph == m.graph && r.nextHandle == m.nextHandle
    ensures var o := CreateFromRecord(m, d, ids, marker, files);
      o.created.Some? ==>
        (m.nextHandle in r.graph.nodes && m.nextHandle in r.graph.children
         && r.graph.nodes[m.nextHandle].uuid == d.uuid.GetOr("")
         && r.graph.nodes[m.nextHandle].name == d.name.GetOr("")
         && (d.position.Some? ==> r.graph.nodes[m.nextHandle].position == d.position.value)
         && r.graph.nodes[m.nextHandle].flags == o.m.graph.nodes[m.nextHandle].flags)
    ensures r.hasList == m.hasList && r.nextHandle >= m.nextHandle
    ensures m.graph.nodes.Keys <= r.graph.nodes.Keys
    ensures forall x :: x in r.graph.children <==>
      (x in m.graph.children || (CreateFromRecord(m, d, ids, marker, files).created.Some? && x == m.nextHandle))
  {
    var o := CreateFromRecord(m, d, ids, marker, files);
    match o.created
    case None => o.m
    case Some(h) => o.m.(graph := o.m.graph.(nodes := o.m.graph.nodes[h := ApplyRecord(o.m.graph.nodes[h], d)]))
  }

  /** Every record in order. Objects already at the top level stay there, and every
      object a record created is a top-level child afterwards. */
  function DeserializeRecords(m: Manager, ds: seq<Record>, ids: seq<Fresh>, marker: Node, files: map<string, Node>): (r: Manager)
    requires |ids| >= |ds|
    requires !marker.flags.isEditorObject
    ensures r.hasList == m.hasList && r.nextHandle >= m.nextHandle
    ensures m.graph.nodes.Keys <= r.graph.nodes.Keys
    ensures forall x :: x in m.graph.children ==> x in r.graph.children
    ensures forall x :: x in r.graph.children ==> x in m.graph.children || x >= m.nextHandle
    ensures |ds| > 0 && CreateFromRecord(m, ds[0], ids[0], marker, files).created.Some? ==>
      m.nextHandle in r.graph.children
    ensures |ds| == 0 ==> r == m
    decreases |ds|
  {
    if |ds| == 0 then m
    else DeserializeRecords(DeserializeOne(m, ds[0], ids[0], marker, files), ds[1..], ids[1..], marker, files)
  }

  /** `deserializeScene(objectsData)`: the editor objects go first, even for input that
      is not an array; each record is then recreated in order (records whose model
      fails to load or whose type is not accepted are skipped), and the scene list is
      rebuilt once at the end. */
  function DeserializeScene(m: Manager, data: SceneData, ids: seq<Fresh>, marker: Node, files: map<string, Node>): (r: Manager)
    requires data.Objects? ==> |ids| >= |data.records|
    requires !marker.flags.isEditorObject
    ensures data.NotAnArray? ==> forall x :: x in r.graph.children <==>
      x in m.graph.children && !(x in m.graph.nodes && m.graph.nodes[x].flags.isEditorObject)
    ensures forall x :: x in m.graph.children && !(x in m.graph.nodes && m.graph.nodes[x].flags.isEditorObject) ==> x in r.graph.children
    ensures Valid(m) ==> forall x :: x in m.graph.children && x in m.graph.nodes && m.graph.nodes[x].flags.isEditorObject ==> x !in r.graph.children
  {
    var cleared := RemoveEditorObjects(m, m.graph.children);
    match data
    case NotAnArray => cleared
    case Objects(ds) => Rebuild(DeserializeRecords(cleared, ds, ids, marker, files))
  }
}
