/** The three.js scene graph as the editor sees it: objects are records in a map
    keyed by a handle (standing for a JavaScript object reference), each with a
    parent link; the scene's own list of top-level children is a sequence. Also
    the record format a project file stores per object. */
module SceneGraph {
  import opened Wrappers
  import History

  type Handle = History.Handle

  /** The scene itself: the parent of every top-level child. No object has it. */
  const SceneRoot: Handle := 0

  datatype Vec3 = Vec3(x: real, y: real, z: real)

  datatype PrimitiveType = Cube | Sphere | Plane
  datatype LightType = Point | Directional

  /** three.js geometry classes the editor creates or inspects. */
  datatype Geometry = BoxGeometry | SphereGeometry | PlaneGeometry | OtherGeometry

  /** `userData.physics`: a missing or zero mass is falsy. */
  datatype Physics = Physics(isDynamic: bool, mass: Option<real>)

  /** `userData.playerSettings` of a Player Start marker; every field is optional in a
      saved project. */
  datatype PlayerSettings = PlayerSettings(
    moveSpeed: Option<real>, runSpeed: Option<real>, jumpHeight: Option<real>,
    cameraHeight: Option<real>, fov: Option<real>, mouseSensitivity: Option<real>,
    playerMass: Option<real>, playerHeight: Option<real>, playerRadius: Option<real>)

  function NoSettings(): PlayerSettings
  {
    PlayerSettings(None, None, None, None, None, None, None, None, None)
  }

  /** The flags the editor keeps in `userData` and on the object itself. */
  datatype Flags = Flags(
    isEditorObject: bool, isHelper: bool, isPlayerStart: bool, isModel: bool,
    isGridHelper: bool, isTransformControls: bool, keep: bool, tempGround: bool)

  function NoFlags(): Flags
  {
    Flags(false, false, false, false, false, false, false, false)
  }

  /** One three.js object. `typeName` is its three.js `type` ("Mesh", "PointLight", ...);
      `light` is present exactly for lights (`isLight`). */
  datatype Node = Node(
    uuid: string, name: string, typeName: string,
    parent: Option<Handle>,
    geometry: Option<Geometry>, light: Option<LightType>,
    position: Vec3, rotation: Vec3, scale: Vec3,
    castShadow: bool, receiveShadow: bool,
    color: nat, intensity: real,
    flags: Flags,
    modelPath: Option<string>,
    physics: Option<Physics>, playerSettings: Option<PlayerSettings>)

  /** The `type` of three.js's `Mesh` and of its subclasses that set their own: the
      objects for which `isMesh` holds. */
  const MeshTypes: set<string> := {"Mesh", "SkinnedMesh", "InstancedMesh", "BatchedMesh", "Lensflare"}

  /** `object.isMesh`. */
  predicate IsMesh(n: Node)
  {
    n.typeName in MeshTypes
  }

  /** The scene: every object ever created (objects are never destroyed, only
      detached) and the ordered top-level children. */
  datatype Graph = Graph(nodes: map<Handle, Node>, children: seq<Handle>)

  /** The top-level list and the parent links agree, and handles are real objects. */
  ghost predicate Valid(g: Graph)
  {
    SceneRoot !in g.nodes
    && (forall i :: 0 <= i < |g.children| ==> g.children[i] in g.nodes && g.nodes[g.children[i]].parent == Some(SceneRoot))
    && (forall i, j :: 0 <= i < j < |g.children| ==> g.children[i] != g.children[j])
    && (forall h :: h in g.nodes && g.nodes[h].parent == Some(SceneRoot) ==> h in g.children)
  }

  /** The top-level list without `h`. */
  function Without(s: seq<Handle>, h: Handle): (r: seq<Handle>)
    ensures h !in r
    ensures forall x :: x in r <==> x in s && x != h
    ensures |r| <= |s|
  {
    if |s| == 0 then []
    else if s[0] == h then Without(s[1..], h)
    else [s[0]] + Without(s[1..], h)
  }

  lemma {:induction false} WithoutDistinct(s: seq<Handle>, h: Handle)
    requires forall i, j :: 0 <= i < j < |s| ==> s[i] != s[j]
    ensures var r := Without(s, h); forall i, j :: 0 <= i < j < |r| ==> r[i] != r[j]
    decreases |s|
  {
    if |s| > 0 {
      WithoutDistinct(s[1..], h);
      if s[0] != h {
        assert s[0] !in s[1..];
        assert s[0] !in Without(s[1..], h);
        var r := Without(s, h);
        assert r == [s[0]] + Without(s[1..], h);
      }
    }
  }

  /** `parent.remove(obj)`: detach `h` from wherever it hangs (a no-op if it is
      already detached or unknown). */
  function Detach(g: Graph, h: Handle): (r: Graph)
    ensures r.nodes.Keys == g.nodes.Keys
    ensures h !in r.children
    ensures forall x :: x in r.children <==> x in g.children && x != h
    ensures h in g.nodes ==> r.nodes[h].parent.None?
    ensures forall x :: x in g.nodes && x != h ==> r.nodes[x] == g.nodes[x]
    ensures h in g.nodes ==> r.nodes[h] == g.nodes[h].(parent := None)
  {
    if h !in g.nodes then g.(children := Without(g.children, h))
    else Graph(g.nodes[h := g.nodes[h].(parent := None)], Without(g.children, h))
  }

  /** `scene.add(obj)`: detach `h` from its old parent, then append it to the end of
      the top-level list. */
  function AddToScene(g: Graph, h: Handle): (r: Graph)
    requires h in g.nodes
    ensures r.nodes.Keys == g.nodes.Keys
    ensures |r.children| > 0 && r.children[|r.children| - 1] == h
    ensures forall x :: x in r.children <==> x in g.children || x == h
    ensures r.nodes[h] == g.nodes[h].(parent := Some(SceneRoot))
    ensures forall x :: x in g.nodes && x != h ==> r.nodes[x] == g.nodes[x]
  {
    var d := Detach(g, h);
    Graph(d.nodes[h := g.nodes[h].(parent := Some(SceneRoot))], d.children + [h])
  }

  lemma AddToSceneValid(g: Graph, h: Handle)
    requires Valid(g) && h in g.nodes
    ensures Valid(AddToScene(g, h))
  {
    DetachValid(g, h);
    var d := Detach(g, h);
    var r := AddToScene(g, h);
    assert r.children == d.children + [h];
    forall i | 0 <= i < |r.children|
      ensures r.children[i] in r.nodes && r.nodes[r.children[i]].parent == Some(SceneRoot)
    {
      if i < |d.children| {
        assert r.children[i] == d.children[i];
        assert d.children[i] in d.children;
      }
    }
  }

  lemma DetachValid(g: Graph, h: Handle)
    requires Valid(g)
    ensures Valid(Detach(g, h))
  {
    WithoutDistinct(g.children, h);
    var d := Detach(g, h);
    assert d.children == Without(g.children, h);
    forall i | 0 <= i < |d.children|
      ensures d.children[i] in d.nodes && d.nodes[d.children[i]].parent == Some(SceneRoot)
    {
      assert d.children[i] in d.children;
      assert d.children[i] in g.children;
    }
  }

  // ---------------------------------------------------------------------------
  // Walking parent links. A walk never revisits an object, so it ends even on a
  // (malformed) cyclic graph; on the acyclic graphs three.js builds it is the plain
  // `while (current) current = current.parent` loop.

  lemma SeenGrows(keys: set<Handle>, seen: set<Handle>, cur: Handle)
    requires cur in keys && cur !in seen
    ensures |keys - (seen + {cur})| < |keys - seen|
  {
    assert keys - seen == (keys - (seen + {cur})) + {cur};
  }

  /** `isDescendantOf(obj, ancestor)`: `ancestor` is `obj` or lies on its parent chain. */
  function IsDescendantOf(nodes: map<Handle, Node>, obj: Handle, ancestor: Handle): bool
  {
    DescendantWalk(nodes, obj, ancestor, {})
  }

  function DescendantWalk(nodes: map<Handle, Node>, cur: Handle, ancestor: Handle, seen: set<Handle>): bool
    decreases |nodes.Keys - seen|
  {
    if cur == ancestor then true
    else if cur !in nodes || cur in seen then false
    else match nodes[cur].parent
      case None => false
      case Some(p) =>
        SeenGrows(nodes.Keys, seen, cur);
        DescendantWalk(nodes, p, ancestor, seen + {cur})
  }

  /** `path` follows parent links from its first to its last element. */
  ghost predicate ParentChain(nodes: map<Handle, Node>, path: seq<Handle>)
  {
    |path| > 0 && forall i :: 0 <= i < |path| - 1 ==> path[i] in nodes && nodes[path[i]].parent == Some(path[i + 1])
  }

  /** A `true` walk is witnessed by a parent chain from `cur` to `ancestor`. */
  lemma {:induction false} DescendantWalkSound(nodes: map<Handle, Node>, cur: Handle, ancestor: Handle, seen: set<Handle>)
    returns (path: seq<Handle>)
    requires DescendantWalk(nodes, cur, ancestor, seen)
    ensures ParentChain(nodes, path) && path[0] == cur && path[|path| - 1] == ancestor
    decreases |nodes.Keys - seen|
  {
    if cur == ancestor {
      path := [cur];
    } else {
      var p := nodes[cur].parent.value;
      SeenGrows(nodes.Keys, seen, cur);
      var rest := DescendantWalkSound(nodes, p, ancestor, seen + {cur});
      path := [cur] + rest;
      assert forall i :: 1 <= i < |path| - 1 ==> path[i] == rest[i - 1];
    }
  }

  /** Conversely, a repetition-free parent chain that avoids the visited set makes the
      walk succeed. */
  lemma {:induction false} DescendantWalkComplete(nodes: map<Handle, Node>, path: seq<Handle>, seen: set<Handle>)
    requires ParentChain(nodes, path)
    requires forall i, j :: 0 <= i < j < |path| ==> path[i] != path[j]
    requires forall i :: 0 <= i < |path| ==> path[i] !in seen
    ensures DescendantWalk(nodes, path[0], path[|path| - 1], seen)
    decreases |path|
  {
    if |path| > 1 {
      var rest := path[1..];
      assert forall i :: 0 <= i < |rest| - 1 ==> rest[i] == path[i + 1];
      assert forall i :: 0 <= i < |rest| ==> rest[i] !in seen + {path[0]} by {
        forall i | 0 <= i < |rest| ensures rest[i] != path[0] {
          assert rest[i] == path[i + 1];
        }
      }
      DescendantWalkComplete(nodes, rest, seen + {path[0]});
      assert path[0] in nodes && nodes[path[0]].parent == Some(path[1]);
    }
  }

  /** The characterisation: `isDescendantOf(o, a)` holds iff a parent chain leads from
      `o` to `a` (repetition-free chains suffice). */
  lemma IsDescendantOfSpec(nodes: map<Handle, Node>, obj: Handle, ancestor: Handle)
    ensures IsDescendantOf(nodes, obj, ancestor) ==>
      exists path :: ParentChain(nodes, path) && path[0] == obj && path[|path| - 1] == ancestor
    ensures obj == ancestor ==> IsDescendantOf(nodes, obj, ancestor)
  {
    if IsDescendantOf(nodes, obj, ancestor) {
      var path := DescendantWalkSound(nodes, obj, ancestor, {});
    }
  }

  lemma IsDescendantOfChain(nodes: map<Handle, Node>, path: seq<Handle>)
    requires ParentChain(nodes, path)
    requires forall i, j :: 0 <= i < j < |path| ==> path[i] != path[j]
    ensures IsDescendantOf(nodes, path[0], path[|path| - 1])
  {
    DescendantWalkComplete(nodes, path, {});
  }

  /** `while (top.parent && top.parent !== scene) top = top.parent`: lift an object
      to the top-level child it hangs under (or to the root of its detached tree). */
  function TopLevelOf(nodes: map<Handle, Node>, h: Handle): (r: Handle)
  {
    TopWalk(nodes, h, {})
  }

  function TopWalk(nodes: map<Handle, Node>, cur: Handle, seen: set<Handle>): (r: Handle)
    decreases |nodes.Keys - seen|
  {
    if cur !in nodes || cur in seen then cur
    else match nodes[cur].parent
      case None => cur
      case Some(p) =>
        if p == SceneRoot then cur
        else
          SeenGrows(nodes.Keys, seen, cur);
          TopWalk(nodes, p, seen + {cur})
  }

  /** The lifted object is on the hit's parent chain, and a hit that hangs under the
      scene is lifted to an object whose parent is the scene. */
  lemma {:induction false} TopWalkSpec(nodes: map<Handle, Node>, cur: Handle, seen: set<Handle>)
    ensures DescendantWalk(nodes, cur, TopWalk(nodes, cur, seen), seen)
    ensures DescendantWalk(nodes, cur, SceneRoot, seen) && cur != SceneRoot ==>
      TopWalk(nodes, cur, seen) in nodes && nodes[TopWalk(nodes, cur, seen)].parent == Some(SceneRoot)
    decreases |nodes.Keys - seen|
  {
    if cur !in nodes || cur in seen {
    } else if nodes[cur].parent.None? {
    } else {
      var p := nodes[cur].parent.value;
      if p != SceneRoot {
        SeenGrows(nodes.Keys, seen, cur);
        TopWalkSpec(nodes, p, seen + {cur});
      }
    }
  }

  /** A top-level child is its own top-level object. */
  lemma TopLevelOfTopLevel(g: Graph, h: Handle)
    requires Valid(g) && h in g.children
    ensures TopLevelOf(g.nodes, h) == h
  {
  }

  /** The first top-level child flagged `isPlayerStart`. */
  function FindPlayerStart(g: Graph, hs: seq<Handle>): (r: Option<Handle>)
    ensures r.Some? ==> r.value in hs && r.value in g.nodes && g.nodes[r.value].flags.isPlayerStart
    ensures r.None? ==> forall i :: 0 <= i < |hs| && hs[i] in g.nodes ==> !g.nodes[hs[i]].flags.isPlayerStart
  {
    if |hs| == 0 then None
    else if hs[0] in g.nodes && g.nodes[hs[0]].flags.isPlayerStart then Some(hs[0])
    else FindPlayerStart(g, hs[1..])
  }

  // ---------------------------------------------------------------------------
  // The per-object record of a saved project (JSON fields; absent ones are None,
  // absent booleans read as false).

  datatype Record = Record(
    uuid: Option<string>, name: Option<string>, typeName: Option<string>,
    geometryType: Option<string>, lightType: Option<string>, primitiveType: Option<string>,
    position: Option<Vec3>, rotation: Option<Vec3>, scale: Option<Vec3>,
    isModel: bool, modelPath: Option<string>, isLight: bool, isPlayerStart: bool,
    physics: Option<Physics>, playerSettings: Option<PlayerSettings>,
    color: Option<nat>, intensity: Option<real>, castShadow: Option<bool>)

  /** A record with only the name and type given. */
  function BareRecord(name: Option<string>, typeName: Option<string>): Record
  {
    Record(None, name, typeName, None, None, None, None, None, None, false, None, false, false,
           None, None, None, None, None)
  }
}
