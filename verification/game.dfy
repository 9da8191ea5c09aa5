/** The play window (`game.js`): it receives the editor's object records, builds a
    mesh and a physics body for each visible object, finds the Player Start record and
    starts either the first-person loop or a render-only loop. The model loader is a
    parameter that settles to one of three outcomes; the sizes of bounding boxes are a
    parameter as in the physics model. */
module Game {
  import opened Wrappers
  import opened SceneGraph
  import Creators
  import Physics
  import PlayerControl

  /** How `loadModel(path)` settles: rejected, resolved with nothing, or resolved with
      the loaded scene. */
  datatype ModelLoad = LoadFailed | LoadedNothing | LoadedScene

  /** What arrives through `onLoadScene`: anything that is not an array, or records. */
  datatype SceneData = NotAnArray | Objects(records: seq<Record>)

  /** Why `loadScene` stops part-way: an awaited model load rejected, or a record that
      gets a mesh lacks a position, rotation or scale (reading `.x` of undefined). In
      both cases the returned promise rejects and the game never starts. */
  datatype LoadError = ModelRejected(path: string) | MissingTransform

  datatype Game = Game(graph: Graph, physics: Physics.State, playerStart: Option<Record>, next: Handle)

  const MeshColor: nat := 0xcccccc

  /** `createGeometry(type)`: a unit box unless the type is `sphere` or `plane`. */
  function CreateGeometry(t: Option<string>): (r: Geometry)
    ensures r != OtherGeometry
    ensures r == SphereGeometry <==> t == Some("sphere")
    ensures r == PlaneGeometry <==> t == Some("plane")
  {
    match t
    case Some("cube") => BoxGeometry
    case Some("sphere") => SphereGeometry
    case Some("plane") => PlaneGeometry
    case _ => BoxGeometry
  }

  /** The editor saves a primitive's type as its `geometryType`, and the play window
      rebuilds the same geometry from it. */
  lemma CreateGeometryAgrees(p: PrimitiveType)
    ensures CreateGeometry(Some(Creators.PrimitiveName(p))) == Creators.GeometryOf(p)
  {
  }

  /** Lights and the Player Start marker get no mesh. */
  predicate Skipped(d: Record)
  {
    d.isLight || d.isPlayerStart
  }

  /** `objData.isModel && objData.modelPath`: a model with a non-empty path. */
  predicate IsModel(d: Record)
  {
    d.isModel && d.modelPath.Some? && d.modelPath.value != ""
  }

  predicate HasTransform(d: Record)
  {
    d.position.Some? && d.rotation.Some? && d.scale.Some?
  }

  /** The record yields a mesh: it is not skipped, and it is a primitive or a model
      whose load resolved with a scene. */
  predicate GetsMesh(d: Record, load: string -> ModelLoad)
  {
    !Skipped(d) && (!IsModel(d) || load(d.modelPath.value) == LoadedScene)
  }

  /** The record aborts the loading. */
  predicate Aborts(d: Record, load: string -> ModelLoad)
  {
    !Skipped(d)
    && ((IsModel(d) && load(d.modelPath.value) == LoadFailed) || (GetsMesh(d, load) && !HasTransform(d)))
  }

  /** The records that end up in the scene, in order: the reference the loading loop is
      measured against. */
  function Spawned(ds: seq<Record>, load: string -> ModelLoad): (r: seq<Record>)
    ensures |r| <= |ds|
    ensures forall i :: 0 <= i < |r| ==> r[i] in ds && GetsMesh(r[i], load)
  {
    if |ds| == 0 then []
    else (if GetsMesh(ds[0], load) then [ds[0]] else []) + Spawned(ds[1..], load)
  }

  /** The mesh built for a record: the loaded model (a group without geometry) or a
      grey mesh with the record's geometry, placed by the record's transform, carrying
      the record's physics settings. */
  function MeshNode(d: Record): (n: Node)
    requires HasTransform(d)
    ensures n.position == d.position.value && n.rotation == d.rotation.value && n.scale == d.scale.value
    ensures n.physics == d.physics && n.parent.None?
    ensures IsModel(d) ==> n.geometry.None?
    ensures !IsModel(d) ==> n.geometry == Some(CreateGeometry(d.geometryType))
  {
    var geometry := if IsModel(d) then None else Some(CreateGeometry(d.geometryType));
    Node("", "", if IsModel(d) then "Group" else "Mesh", None, geometry, None,
         d.position.value, d.rotation.value, d.scale.value, false, false, MeshColor, 0.0,
         NoFlags(), if IsModel(d) then d.modelPath else None, d.physics, None)
  }

  /** One pass of the loop in `loadScene`. */
  function LoadOne(gm: Game, d: Record, load: string -> ModelLoad, size: Handle -> Vec3): (r: Result<Game, LoadError>)
    ensures r.Err? <==> Aborts(d, load)
    ensures r.Ok? && !GetsMesh(d, load) ==> r.value == gm
    ensures r.Ok? && GetsMesh(d, load) ==>
      r.value.physics == Physics.Add(gm.physics, Some(Physics.Mesh(gm.next, MeshNode(d), size(gm.next))))
      && r.value.next == gm.next + 1 && r.value.playerStart == gm.playerStart
  {
    if Skipped(d) then Ok(gm)
    else if IsModel(d) && load(d.modelPath.value) == LoadFailed then Err(ModelRejected(d.modelPath.value))
    else if !GetsMesh(d, load) then Ok(gm)
    else if !HasTransform(d) then Err(MissingTransform)
    else
      var h := gm.next;
      var n := MeshNode(d);
      var g := AddToScene(Graph(gm.graph.nodes[h := n], gm.graph.children), h);
      Ok(Game(g, Physics.Add(gm.physics, Some(Physics.Mesh(h, n, size(h)))), gm.playerStart, h + 1))
  }

  /** Where a body stands and how heavy it is. */
  function Placed(p: Physics.Pair): (Option<Vec3>, real)
  {
    (Some(p.body.position), p.body.mass)
  }

  /** Where a record's body should stand and how heavy it should be. */
  function Expected(d: Record): (Option<Vec3>, real)
  {
    (d.position, Physics.MassOf(d.physics))
  }

  function Bodies(ps: seq<Physics.Pair>): (r: seq<(Option<Vec3>, real)>)
    ensures |r| == |ps|
  {
    if |ps| == 0 then [] else Bodies(ps[..|ps| - 1]) + [Placed(ps[|ps| - 1])]
  }

  function Expectations(rs: seq<Record>): (r: seq<(Option<Vec3>, real)>)
    ensures |r| == |rs|
  {
    if |rs| == 0 then [] else [Expected(rs[0])] + Expectations(rs[1..])
  }

  /** The body list grows by one body per spawned record, in order, each at its
      record's position with the mass its physics settings give. */
  ghost predicate BodiesFor(before: seq<Physics.Pair>, after: seq<Physics.Pair>, rs: seq<Record>)
  {
    |after| >= |before| && after[..|before|] == before
    && Bodies(after) == Bodies(before) + Expectations(rs)
  }

  /** The loop over all records, stopping at the first one that aborts. */
  function LoadAll(gm: Game, ds: seq<Record>, load: string -> ModelLoad, size: Handle -> Vec3): (r: Result<Game, LoadError>)
    ensures r.Ok? <==> forall i :: 0 <= i < |ds| ==> !Aborts(ds[i], load)
    ensures r.Ok? ==> BodiesFor(gm.physics.objects, r.value.physics.objects, Spawned(ds, load))
    ensures r.Ok? ==> r.value.playerStart == gm.playerStart
    decreases |ds|
  {
    if |ds| == 0 then
      assert gm.physics.objects[..|gm.physics.objects|] == gm.physics.objects;
      Ok(gm)
    else
      match LoadOne(gm, ds[0], load, size)
      case Err(e) => Err(e)
      case Ok(g1) =>
        var r := LoadAll(g1, ds[1..], load, size);
        assert forall i :: 1 <= i < |ds| ==> ds[i] == ds[1..][i - 1];
        if r.Ok? then
          SpawnedStep(gm, g1, r.value, ds, load, size);
          r
        else
          r
  }

  /** The induction step of `LoadAll`: the first record's body, then the rest's. */
  lemma SpawnedStep(gm: Game, g1: Game, g2: Game, ds: seq<Record>, load: string -> ModelLoad, size: Handle -> Vec3)
    requires |ds| > 0 && LoadOne(gm, ds[0], load, size) == Ok(g1)
    requires BodiesFor(g1.physics.objects, g2.physics.objects, Spawned(ds[1..], load))
    ensures BodiesFor(gm.physics.objects, g2.physics.objects, Spawned(ds, load))
  {
    LoadOneBodies(gm, ds[0], load, size, g1);
    BodiesForTrans(gm.physics.objects, g1.physics.objects, g2.physics.objects,
                   if GetsMesh(ds[0], load) then [ds[0]] else [], Spawned(ds[1..], load));
  }

  /** One pass of the loop adds the record's body, if it gets one, behind the others. */
  lemma LoadOneBodies(gm: Game, d: Record, load: string -> ModelLoad, size: Handle -> Vec3, g1: Game)
    requires LoadOne(gm, d, load, size) == Ok(g1)
    ensures BodiesFor(gm.physics.objects, g1.physics.objects, if GetsMesh(d, load) then [d] else [])
  {
    var before, mid := gm.physics.objects, g1.physics.objects;
    if GetsMesh(d, load) {
      assert Expectations([d]) == [Expected(d)];
      assert mid[..|before|] == before;
      assert Bodies(mid) == Bodies(before) + [Placed(mid[|before|])];
      assert Placed(mid[|before|]) == Expected(d);
    } else {
      assert before[..|before|] == before;
    }
  }

  /** Two runs of bodies one after the other are the run for both record lists. */
  lemma BodiesForTrans(before: seq<Physics.Pair>, mid: seq<Physics.Pair>, after: seq<Physics.Pair>, x: seq<Record>, y: seq<Record>)
    requires BodiesFor(before, mid, x) && BodiesFor(mid, after, y)
    ensures BodiesFor(before, after, x + y)
  {
    ExpectationsAppend(x, y);
    assert after[..|mid|][..|before|] == after[..|before|];
  }

  lemma {:induction false} ExpectationsAppend(a: seq<Record>, b: seq<Record>)
    ensures Expectations(a + b) == Expectations(a) + Expectations(b)
    decreases |a|
  {
    if |a| > 0 {
      assert (a + b)[1..] == a[1..] + b;
      ExpectationsAppend(a[1..], b);
    } else {
      assert a + b == b;
    }
  }

  /** `objectsData.find(d => d.isPlayerStart)`. */
  function FirstStart(ds: seq<Record>): (r: Option<Record>)
    ensures r.None? <==> forall i :: 0 <= i < |ds| ==> !ds[i].isPlayerStart
    ensures r.Some? ==> exists i :: (0 <= i < |ds| && ds[i] == r.value && ds[i].isPlayerStart
                                     && forall j :: 0 <= j < i ==> !ds[j].isPlayerStart)
    decreases |ds|
  {
    if |ds| == 0 then None
    else if ds[0].isPlayerStart then Some(ds[0])
    else
      var r := FirstStart(ds[1..]);
      assert forall i :: 1 <= i < |ds| ==> ds[i] == ds[1..][i - 1];
      if r.Some? then
        var i :| 0 <= i < |ds[1..]| && ds[1..][i] == r.value && ds[1..][i].isPlayerStart
          && forall j :: 0 <= j < i ==> !ds[1..][j].isPlayerStart;
        assert ds[i + 1] == r.value;
        r
      else
        r
  }

  /** `loadScene(objectsData)`: a non-array changes nothing; otherwise the records are
      loaded in order and the Player Start record is remembered. */
  function LoadScene(gm: Game, data: SceneData, load: string -> ModelLoad, size: Handle -> Vec3): (r: Result<Game, LoadError>)
    ensures data.NotAnArray? ==> r == Ok(gm)
    ensures data.Objects? ==> (r.Ok? <==> forall i :: 0 <= i < |data.records| ==> !Aborts(data.records[i], load))
    ensures data.Objects? && r.Ok? ==>
      BodiesFor(gm.physics.objects, r.value.physics.objects, Spawned(data.records, load))
      && r.value.playerStart == FirstStart(data.records)
  {
    match data
    case NotAnArray => Ok(gm)
    case Objects(ds) =>
      match LoadAll(gm, ds, load, size)
      case Err(e) => Err(e)
      case Ok(g) => Ok(g.(playerStart := FirstStart(ds)))
  }

  /** Neither lights nor the Player Start marker get a body in the play window. */
  lemma NoBodyForSkipped(gm: Game, ds: seq<Record>, load: string -> ModelLoad, size: Handle -> Vec3, d: Record)
    requires d in ds && Skipped(d)
    ensures d !in Spawned(ds, load)
  {
  }

  /** A scene of primitives with transforms always loads, and gives one body per
      record that is neither a light nor the Player Start marker. */
  lemma PrimitivesAlwaysLoad(gm: Game, ds: seq<Record>, load: string -> ModelLoad, size: Handle -> Vec3)
    requires forall i :: 0 <= i < |ds| ==> !IsModel(ds[i]) && HasTransform(ds[i])
    ensures LoadScene(gm, Objects(ds), load, size).Ok?
    ensures var r := LoadScene(gm, Objects(ds), load, size).value;
      forall d :: d in ds && !Skipped(d) ==> d in Spawned(ds, load)
  {
    SpawnedComplete(ds, load);
  }

  lemma {:induction false} SpawnedComplete(ds: seq<Record>, load: string -> ModelLoad)
    ensures forall d :: d in ds && GetsMesh(d, load) ==> d in Spawned(ds, load)
    decreases |ds|
  {
    if |ds| > 0 {
      SpawnedComplete(ds[1..], load);
      forall d | d in ds && GetsMesh(d, load)
        ensures d in Spawned(ds, load)
      {
        if d != ds[0] {
          assert d in ds[1..];
        }
      }
    }
  }

  // ---------------------------------------------------------------------------
  // Starting

  /** An animation loop: the first-person loop with its controller, or the render-only
      loop that steps physics and draws. */
  datatype Loop = Playing(controller: PlayerControl.Controller) | RenderOnly

  /** `startGame()`: without a Player Start record, a render-only loop; with one, a
      player controller with that record's settings, standing on its position. A
      record without a position makes the constructor throw and nothing starts. */
  function StartGame(gm: Game, camera: Vec3): (r: seq<Loop>)
    ensures gm.playerStart.None? ==> r == [RenderOnly]
    ensures gm.playerStart.Some? && gm.playerStart.value.position.None? ==> r == []
    ensures gm.playerStart.Some? && gm.playerStart.value.position.Some? ==>
      |r| == 1 && r[0].Playing?
      && r[0].controller == PlayerControl.New(gm.playerStart.value.playerSettings, gm.playerStart.value.position.value, camera)
  {
    match gm.playerStart
    case None => [RenderOnly]
    case Some(d) =>
      match d.position
      case None => []
      case Some(p) => [Playing(PlayerControl.New(d.playerSettings, p, camera))]
  }

  /** `startGame()` as written, with the physics library's shape classes `shapes`: the
      player controller is built with `PlayerControl.Construct`, and when it throws,
      `animate()` is never reached and no loop starts. */
  function StartGameAsWritten(gm: Game, camera: Vec3, shapes: set<string>): (r: seq<Loop>)
    ensures gm.playerStart.None? ==> r == [RenderOnly]
    ensures gm.playerStart.Some? && "Capsule" !in shapes ==> r == []
    ensures "Capsule" in shapes ==> r == StartGame(gm, camera)
  {
    match gm.playerStart
    case None => [RenderOnly]
    case Some(d) =>
      match d.position
      case None => []
      case Some(p) =>
        match PlayerControl.Construct(d.playerSettings, p, camera, shapes)
        case None => []
        case Some(c) => [Playing(c)]
  }

  /** With cannon-es, a scene that has a Player Start starts no loop at all as written,
      where the first-person loop is meant; since the fallback timer then stays idle,
      nothing is drawn. */
  lemma NoCapsuleNoPlay(gm: Game, camera: Vec3)
    requires gm.playerStart.Some? && gm.playerStart.value.position.Some?
    ensures StartGameAsWritten(gm, camera, PlayerControl.PhysicsShapes) == []
    ensures Fallback(gm) + StartGameAsWritten(gm, camera, PlayerControl.PhysicsShapes) == []
    ensures |StartGame(gm, camera)| == 1 && StartGame(gm, camera)[0].Playing?
  {
  }

  /** The 500 ms fallback timer: a render-only loop unless a Player Start record has
      been found by then. */
  function Fallback(gm: Game): (r: seq<Loop>)
    ensures r == [] <==> gm.playerStart.Some?
  {
    if gm.playerStart.None? then [RenderOnly] else []
  }

  /** The window's loops when the fallback timer fires before the scene arrives and
      after it arrives: if the timer wins, a scene with a Player Start runs both a
      render-only loop and the first-person loop, so physics is stepped twice a frame,
      and a scene without one runs two render-only loops. */
  lemma LateSceneRunsTwoLoops(gm: Game, data: SceneData, load: string -> ModelLoad, size: Handle -> Vec3, camera: Vec3)
    requires gm.playerStart.None?
    requires LoadScene(gm, data, load, size).Ok?
    ensures var g := LoadScene(gm, data, load, size).value;
      var timerFirst := Fallback(gm) + StartGame(g, camera);
      var sceneFirst := StartGame(g, camera) + Fallback(g);
      (g.playerStart.Some? && g.playerStart.value.position.Some? ==>
         |timerFirst| == 2 && timerFirst[0] == RenderOnly && timerFirst[1].Playing?
         && |sceneFirst| == 1 && sceneFirst[0].Playing?)
      && (g.playerStart.None? ==> timerFirst == [RenderOnly, RenderOnly] && sceneFirst == [RenderOnly, RenderOnly])
  {
  }
}
