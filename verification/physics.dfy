/** The physics side of play mode (`PhysicsManager`): scene meshes paired with rigid
    bodies, the set of bodies in the world, and the player's body with its jump flag.
    The solver (`world.step`), bounding boxes, orientations and vector normalisation
    are not modelled: sizes, solver poses and camera directions are parameters. */
module Physics {
  import opened Wrappers
  import opened Text
  import opened SceneGraph

  type BodyId = nat

  datatype Shape = SphereShape(radius: real) | PlaneShape | BoxShape(halfExtents: Vec3)

  /** A rigid body. `turnedFlat` is the -pi/2 turn about x a plane body gets in place
      of the mesh's orientation. */
  datatype Body = Body(id: BodyId, mass: real, shape: Shape, position: Vec3, turnedFlat: bool)

  /** One `{ mesh, body }` entry of `objects`. */
  datatype Pair = Pair(mesh: Handle, body: Body)

  /** The horizontal velocity `updatePlayer` sets: zero, or `speed` along the
      direction `dir` once normalised. */
  datatype Horizontal = Stopped | Heading(dir: Vec3, speed: real)

  datatype Player = Player(body: Body, horizontal: Horizontal, vy: real, canJump: bool, camera: Vec3)

  /** `world` is the set of bodies the solver simulates; `nextBody` names the next
      body constructed. */
  datatype State = State(world: set<BodyId>, objects: seq<Pair>, player: Option<Player>, nextBody: BodyId)

  const PlayerBodyRadius: real := 0.5
  const PlayerBodyMass: real := 70.0
  const JumpVelocity: real := 5.5
  const DefaultMoveSpeed: real := 11.5
  const DefaultRunSpeed: real := 18.0
  const CameraOffset: real := 0.8
  /** A contact whose (upward-turned) normal has y above this lets the player jump. */
  const GroundNormal: real := 0.4

  function Initial(): (s: State)
    ensures s.world == {} && s.objects == [] && s.player.None?
  {
    State({}, [], None, 0)
  }

  /** Bodies have distinct identities below `nextBody`, and every paired body and the
      player's body is in the world. */
  ghost predicate Valid(s: State)
  {
    (forall b :: b in s.world ==> b < s.nextBody)
    && (forall i :: 0 <= i < |s.objects| ==> s.objects[i].body.id in s.world)
    && DistinctIds(s.objects)
    && (s.player.Some? ==>
          (s.player.value.body.id in s.world
           && forall i :: 0 <= i < |s.objects| ==> s.objects[i].body.id != s.player.value.body.id))
  }

  ghost predicate DistinctIds(ps: seq<Pair>)
  {
    forall i, j :: 0 <= i < j < |ps| ==> ps[i].body.id != ps[j].body.id
  }

  // ---------------------------------------------------------------------------
  // Classifying a mesh

  /** `isDynamic ? mass || 1 : 0`, missing physics reading as static: a body has zero
      mass exactly when its object is static. */
  function MassOf(p: Option<Physics>): (r: real)
    ensures r == 0.0 <==> p.None? || !p.value.isDynamic
    ensures p.Some? && p.value.isDynamic && p.value.mass.Some? && p.value.mass.value != 0.0 ==> r == p.value.mass.value
    ensures p.Some? && p.value.isDynamic && (p.value.mass.None? || p.value.mass.value == 0.0) ==> r == 1.0
  {
    match p
    case None => 0.0
    case Some(ph) =>
      if !ph.isDynamic then 0.0
      else if ph.mass.Some? && ph.mass.value != 0.0 then ph.mass.value
      else 1.0
  }

  /** three.js's `geometry.type`, with `'BoxGeometry'` for an object without geometry. */
  function GeometryTypeName(g: Option<Geometry>): string
  {
    match g
    case None => "BoxGeometry"
    case Some(BoxGeometry) => "BoxGeometry"
    case Some(SphereGeometry) => "SphereGeometry"
    case Some(PlaneGeometry) => "PlaneGeometry"
    case Some(OtherGeometry) => "BufferGeometry"
  }

  /** The collision shape for a geometry type name and a bounding-box size. */
  function ShapeFor(geoType: string, size: Vec3): (r: Shape)
    ensures r.SphereShape? <==> Contains(geoType, "Sphere")
    ensures r.PlaneShape? <==> !Contains(geoType, "Sphere") && Contains(geoType, "Plane")
    ensures r.SphereShape? ==> r.radius == size.x / 2.0
    ensures r.BoxShape? ==> r.halfExtents == Vec3(size.x / 2.0, size.y / 2.0, size.z / 2.0)
  {
    if Contains(geoType, "Sphere") then SphereShape(size.x / 2.0)
    else if Contains(geoType, "Plane") then PlaneShape
    else BoxShape(Vec3(size.x / 2.0, size.y / 2.0, size.z / 2.0))
  }

  /** Spheres get sphere bodies, planes flat plane bodies, and everything else
      (boxes, imported models, objects without geometry) a box. */
  lemma ShapeOfGeometry(g: Option<Geometry>, size: Vec3)
    ensures var t := GeometryTypeName(g); var s := ShapeFor(t, size);
      (s.SphereShape? <==> g == Some(SphereGeometry))
      && (s.PlaneShape? <==> g == Some(PlaneGeometry))
      && (Contains(t, "Plane") <==> g == Some(PlaneGeometry))
  {
    var t := GeometryTypeName(g);
    GeometryWords(g, t);
  }

  lemma GeometryWords(g: Option<Geometry>, t: string)
    requires t == GeometryTypeName(g)
    ensures Contains(t, "Sphere") <==> g == Some(SphereGeometry)
    ensures Contains(t, "Plane") <==> g == Some(PlaneGeometry)
  {
    if g == Some(SphereGeometry) {
      assert t[0..6] == "Sphere";
      ContainsFromWindow(t, "Sphere", 0);
      assert forall i :: 0 <= i < |t| ==> t[i] != 'P';
      NoCharNoContains(t, "Plane");
    } else if g == Some(PlaneGeometry) {
      assert t[0..5] == "Plane";
      ContainsFromWindow(t, "Plane", 0);
      assert forall i :: 0 <= i < |t| ==> t[i] != 'S';
      NoCharNoContains(t, "Sphere");
    } else {
      assert forall i :: 0 <= i < |t| ==> t[i] != 'S' && t[i] != 'P';
      NoCharNoContains(t, "Sphere");
      NoCharNoContains(t, "Plane");
    }
  }

  /** A mesh handed to `add`: its handle, its object and the size of its bounding box. */
  datatype Mesh = Mesh(handle: Handle, node: Node, size: Vec3)

  /** The body `add` builds for a mesh: mass from its physics settings, shape from its
      geometry, the mesh's position. */
  function NewBody(id: BodyId, m: Mesh): (b: Body)
    ensures b.id == id && b.position == m.node.position
    ensures b.mass == MassOf(m.node.physics)
    ensures b.shape == ShapeFor(GeometryTypeName(m.node.geometry), m.size)
    ensures b.turnedFlat <==> m.node.geometry == Some(PlaneGeometry)
  {
    var t := GeometryTypeName(m.node.geometry);
    GeometryWords(m.node.geometry, t);
    Body(id, MassOf(m.node.physics), ShapeFor(t, m.size), m.node.position, Contains(t, "Plane"))
  }

  // ---------------------------------------------------------------------------
  // The registry

  function Meshes(ps: seq<Pair>): (r: seq<Handle>)
    ensures |r| == |ps| && forall i :: 0 <= i < |ps| ==> r[i] == ps[i].mesh
  {
    seq(|ps|, i requires 0 <= i < |ps| => ps[i].mesh)
  }

  /** `add(mesh)`: nothing for a missing mesh; otherwise a new body enters the world
      and one pair is appended. */
  function Add(s: State, mesh: Option<Mesh>): (r: State)
    ensures mesh.None? ==> r == s
    ensures mesh.Some? ==>
      r.objects == s.objects + [Pair(mesh.value.handle, NewBody(s.nextBody, mesh.value))]
      && r.world == s.world + {s.nextBody} && r.player == s.player && r.nextBody == s.nextBody + 1
  {
    match mesh
    case None => s
    case Some(m) =>
      State(s.world + {s.nextBody}, s.objects + [Pair(m.handle, NewBody(s.nextBody, m))], s.player, s.nextBody + 1)
  }

  lemma AddValid(s: State, mesh: Option<Mesh>)
    requires Valid(s)
    ensures Valid(Add(s, mesh))
  {
  }

  /** `objects.find(obj => obj.mesh === mesh)`. */
  function FindPair(ps: seq<Pair>, h: Handle): (r: Option<Pair>)
    ensures r.None? <==> forall i :: 0 <= i < |ps| ==> ps[i].mesh != h
    ensures r.Some? ==> r.value in ps && r.value.mesh == h
    decreases |ps|
  {
    if |ps| == 0 then None
    else if ps[0].mesh == h then Some(ps[0])
    else FindPair(ps[1..], h)
  }

  /** `objects.filter(obj => obj.mesh !== mesh)`. */
  function DropMesh(ps: seq<Pair>, h: Handle): (r: seq<Pair>)
    ensures forall p :: p in r <==> p in ps && p.mesh != h
    ensures |r| <= |ps|
    decreases |ps|
  {
    if |ps| == 0 then []
    else if ps[0].mesh == h then DropMesh(ps[1..], h)
    else [ps[0]] + DropMesh(ps[1..], h)
  }

  /** `remove(mesh)`: for a mesh with no pair, nothing; otherwise the first pair's body
      leaves the world and every pair of the mesh is dropped. */
  function Remove(s: State, h: Handle): (r: State)
    ensures FindPair(s.objects, h).None? ==> r == s
    ensures FindPair(s.objects, h).Some? ==>
      r.world == s.world - {FindPair(s.objects, h).value.body.id} && r.player == s.player
      && r.nextBody == s.nextBody
      && forall p :: p in r.objects <==> p in s.objects && p.mesh != h
  {
    match FindPair(s.objects, h)
    case None => s
    case Some(p) => s.(world := s.world - {p.body.id}, objects := DropMesh(s.objects, h))
  }

  lemma {:induction false} FindPairAppend(ps: seq<Pair>, p: Pair)
    requires forall i :: 0 <= i < |ps| ==> ps[i].mesh != p.mesh
    ensures FindPair(ps + [p], p.mesh) == Some(p)
    decreases |ps|
  {
    if |ps| > 0 {
      assert (ps + [p])[1..] == ps[1..] + [p];
      FindPairAppend(ps[1..], p);
    }
  }

  lemma {:induction false} DropMeshAbsent(ps: seq<Pair>, h: Handle)
    requires forall i :: 0 <= i < |ps| ==> ps[i].mesh != h
    ensures DropMesh(ps, h) == ps
    decreases |ps|
  {
    if |ps| > 0 {
      DropMeshAbsent(ps[1..], h);
      assert [ps[0]] + ps[1..] == ps;
    }
  }

  lemma {:induction false} DropMeshAppend(ps: seq<Pair>, p: Pair)
    requires forall i :: 0 <= i < |ps| ==> ps[i].mesh != p.mesh
    ensures DropMesh(ps + [p], p.mesh) == ps
    decreases |ps|
  {
    if |ps| == 0 {
      assert DropMesh([p], p.mesh) == DropMesh([p][1..], p.mesh);
    } else {
      assert (ps + [p])[1..] == ps[1..] + [p];
      DropMeshAppend(ps[1..], p);
      assert [ps[0]] + ps[1..] == ps;
    }
  }

  /** Adding a mesh that has no body yet and removing it again restores the registry
      and the world; only the body counter has moved on. */
  lemma AddThenRemove(s: State, m: Mesh)
    requires Valid(s)
    requires forall i :: 0 <= i < |s.objects| ==> s.objects[i].mesh != m.handle
    ensures Remove(Add(s, Some(m)), m.handle) == s.(nextBody := s.nextBody + 1)
  {
    var p := Pair(m.handle, NewBody(s.nextBody, m));
    FindPairAppend(s.objects, p);
    DropMeshAppend(s.objects, p);
    assert s.nextBody !in s.world;
    assert s.world + {s.nextBody} - {s.nextBody} == s.world;
  }

  lemma RemoveValid(s: State, h: Handle)
    requires Valid(s)
    ensures Valid(Remove(s, h))
  {
    if FindPair(s.objects, h).Some? {
      var p := FindPair(s.objects, h).value;
      var r := Remove(s, h);
      var ps := r.objects;
      assert ps == DropMesh(s.objects, h);
      DropMeshDistinct(s.objects, h);
      var j :| 0 <= j < |s.objects| && s.objects[j] == p;
      forall i | 0 <= i < |ps|
        ensures ps[i].body.id in r.world
        ensures s.player.Some? ==> ps[i].body.id != s.player.value.body.id
      {
        assert ps[i] in s.objects && ps[i].mesh != h;
        var k :| 0 <= k < |s.objects| && s.objects[k] == ps[i];
        assert k != j;
      }
      if s.player.Some? {
        assert s.player.value.body.id != s.objects[j].body.id;
      }
    }
  }

  /** Filtering keeps body identities distinct. */
  lemma {:induction false} DropMeshDistinct(ps: seq<Pair>, h: Handle)
    requires DistinctIds(ps)
    ensures DistinctIds(DropMesh(ps, h))
    decreases |ps|
  {
    if |ps| > 0 {
      var rest := DropMesh(ps[1..], h);
      DropMeshDistinct(ps[1..], h);
      if ps[0].mesh != h {
        forall i | 0 <= i < |rest|
          ensures rest[i].body.id != ps[0].body.id
        {
          assert rest[i] in ps[1..];
          var k :| 0 <= k < |ps[1..]| && ps[1..][k] == rest[i];
          assert ps[k + 1] == rest[i];
        }
        var r := DropMesh(ps, h);
        assert r == [ps[0]] + rest;
        forall i, j | 0 <= i < j < |r|
          ensures r[i].body.id != r[j].body.id
        {
          assert r[j] == rest[j - 1];
          if i > 0 {
            assert r[i] == rest[i - 1];
          } else {
            assert r[i] == ps[0];
          }
        }
      } else {
        assert DropMesh(ps, h) == rest;
      }
    }
  }

  // ---------------------------------------------------------------------------
  // Clearing and rebuilding from the scene

  function BodyIds(ps: seq<Pair>): (r: set<BodyId>)
    ensures forall b :: b in r <==> exists i :: 0 <= i < |ps| && ps[i].body.id == b
  {
    set i | 0 <= i < |ps| :: ps[i].body.id
  }

  /** A leftover ground mesh of an earlier play session. */
  predicate TempGround(g: Graph, h: Handle)
  {
    h in g.nodes && g.nodes[h].flags.tempGround
  }

  function TempGrounds(g: Graph, hs: seq<Handle>): (r: seq<Handle>)
    ensures forall x :: x in r <==> x in hs && TempGround(g, x)
    decreases |hs|
  {
    if |hs| == 0 then []
    else if TempGround(g, hs[0]) then [hs[0]] + TempGrounds(g, hs[1..])
    else TempGrounds(g, hs[1..])
  }

  /** Detach each of `hs` in turn. */
  function DetachAll(g: Graph, hs: seq<Handle>): (r: Graph)
    ensures r.nodes.Keys == g.nodes.Keys
    ensures forall x :: x in r.children <==> x in g.children && x !in hs
    ensures forall x :: x in g.nodes && x !in hs ==> r.nodes[x] == g.nodes[x]
    ensures forall x :: x in g.nodes && x in hs ==> r.nodes[x] == g.nodes[x].(parent := None)
    decreases |hs|
  {
    if |hs| == 0 then g
    else DetachAll(Detach(g, hs[0]), hs[1..])
  }

  /** `clear()`: every paired body leaves the world, the registry and the player are
      dropped, and the leftover ground meshes are taken out of the scene. The player's
      body stays in the world. */
  function Clear(s: State, g: Graph): (r: (State, Graph))
    ensures r.0.objects == [] && r.0.player.None? && r.0.nextBody == s.nextBody
    ensures forall b :: b in r.0.world <==> b in s.world && forall i :: 0 <= i < |s.objects| ==> s.objects[i].body.id != b
    ensures r.1.nodes.Keys == g.nodes.Keys
    ensures forall x :: x in r.1.children <==> x in g.children && !TempGround(g, x)
    ensures forall x :: x in g.nodes && !TempGround(g, x) ==> r.1.nodes[x] == g.nodes[x]
  {
    (State(s.world - BodyIds(s.objects), [], None, s.nextBody), DetachAll(g, TempGrounds(g, g.children)))
  }

  lemma ClearValid(s: State, g: Graph)
    requires Valid(s)
    ensures Valid(Clear(s, g).0)
  {
  }

  /** The objects `initFromScene` gives a body: editor objects that are neither
      helpers nor the Player Start marker. */
  predicate Eligible(g: Graph, h: Handle)
  {
    h in g.nodes && g.nodes[h].flags.isEditorObject && !g.nodes[h].flags.isHelper && !g.nodes[h].flags.isPlayerStart
  }

  function Candidates(g: Graph, hs: seq<Handle>): (r: seq<Handle>)
    ensures forall x :: x in r <==> x in hs && Eligible(g, x)
    ensures |r| <= |hs|
    decreases |hs|
  {
    if |hs| == 0 then []
    else if Eligible(g, hs[0]) then [hs[0]] + Candidates(g, hs[1..])
    else Candidates(g, hs[1..])
  }

  /** The pairs `add` appends for the eligible objects of `hs`, in order, numbering
      their bodies from `next`. `size` gives each object's bounding-box size. */
  function NewPairs(g: Graph, hs: seq<Handle>, next: BodyId, size: Handle -> Vec3): (r: seq<Pair>)
    ensures Meshes(r) == Candidates(g, hs)
    ensures forall i :: 0 <= i < |r| ==> r[i].body.id == next + i
    ensures forall i :: 0 <= i < |r| ==>
      r[i].mesh in g.nodes && r[i].body.mass == MassOf(g.nodes[r[i].mesh].physics)
    decreases |hs|
  {
    if |hs| == 0 then []
    else if Eligible(g, hs[0]) then
      var rest := NewPairs(g, hs[1..], next + 1, size);
      var r := [Pair(hs[0], NewBody(next, Mesh(hs[0], g.nodes[hs[0]], size(hs[0]))))] + rest;
      assert Meshes(r) == [hs[0]] + Meshes(rest);
      r
    else NewPairs(g, hs[1..], next, size)
  }

  /** `add` applied to each eligible object of `hs` in turn. */
  function AddEligible(s: State, g: Graph, hs: seq<Handle>, size: Handle -> Vec3): (r: State)
    ensures r.objects == s.objects + NewPairs(g, hs, s.nextBody, size)
    ensures r.player == s.player && r.nextBody == s.nextBody + |NewPairs(g, hs, s.nextBody, size)|
    ensures forall b :: b in r.world <==> b in s.world || s.nextBody <= b < r.nextBody
  {
    var ps := NewPairs(g, hs, s.nextBody, size);
    BodyIdsRange(ps, s.nextBody);
    State(s.world + BodyIds(ps), s.objects + ps, s.player, s.nextBody + |ps|)
  }

  /** Consecutively numbered bodies occupy exactly their range of identities. */
  lemma BodyIdsRange(ps: seq<Pair>, next: BodyId)
    requires forall i :: 0 <= i < |ps| ==> ps[i].body.id == next + i
    ensures forall b :: b in BodyIds(ps) <==> next <= b < next + |ps|
  {
    forall b | next <= b < next + |ps|
      ensures b in BodyIds(ps)
    {
      assert ps[b - next].body.id == b;
    }
  }

  /** `initFromScene()`: clear, then one body per eligible top-level child, in scene
      order, and no player. */
  function InitFromScene(s: State, g: Graph, size: Handle -> Vec3): (r: (State, Graph))
    ensures r.1 == Clear(s, g).1
    ensures r.0.player.None?
    ensures Meshes(r.0.objects) == Candidates(r.1, r.1.children)
    ensures forall i :: 0 <= i < |r.0.objects| ==>
      r.0.objects[i].mesh in r.1.nodes && r.0.objects[i].body.mass == MassOf(r.1.nodes[r.0.objects[i].mesh].physics)
  {
    var (c, g1) := Clear(s, g);
    var ps := NewPairs(g1, g1.children, c.nextBody, size);
    var r := AddEligible(c, g1, g1.children, size);
    assert r.objects == ps by {
      assert c.objects == [];
    }
    (r, g1)
  }

  /** Exactly the eligible top-level children that survive clearing get a body. */
  lemma InitFromSceneBodies(s: State, g: Graph, size: Handle -> Vec3, h: Handle)
    ensures var r := InitFromScene(s, g, size);
      h in Meshes(r.0.objects) <==> h in g.children && !TempGround(g, h) && Eligible(r.1, h)
  {
  }

  // ---------------------------------------------------------------------------
  // The player

  /** `initPlayer(start)`: nothing without a Player Start; otherwise a 70 kg sphere of
      radius 0.5 at the marker's position enters the world, and the player cannot jump
      until it touches the ground. */
  function InitPlayer(s: State, start: Option<Vec3>, camera: Vec3): (r: State)
    ensures start.None? ==> r == s
    ensures start.Some? ==> r.player.Some? && var p := r.player.value;
      p.body.id == s.nextBody && p.body.id in r.world && p.body.position == start.value
      && p.body.mass == PlayerBodyMass && p.body.shape == SphereShape(PlayerBodyRadius)
      && !p.canJump && p.horizontal == Stopped
      && r.objects == s.objects && r.world == s.world + {s.nextBody}
  {
    match start
    case None => s
    case Some(pos) =>
      var b := Body(s.nextBody, PlayerBodyMass, SphereShape(PlayerBodyRadius), pos, false);
      State(s.world + {s.nextBody}, s.objects, Some(Player(b, Stopped, 0.0, false, camera)), s.nextBody + 1)
  }

  /** Adding the player keeps the world consistent: its body gets a fresh identity no
      paired body has, even when an earlier player body is still in the world. */
  lemma InitPlayerValid(s: State, start: Option<Vec3>, camera: Vec3)
    requires Valid(s)
    ensures Valid(InitPlayer(s, start, camera))
  {
  }

  /** The ground-contact listener: the contact normal is turned to point up, so a
      steep enough contact from below or from above lets the player jump. */
  function Collide(p: Player, normal: Option<Vec3>): (r: Player)
    ensures r.canJump <==> p.canJump || (normal.Some? && (normal.value.y > GroundNormal || normal.value.y < -GroundNormal))
    ensures r == p.(canJump := r.canJump)
  {
    match normal
    case None => p
    case Some(n) =>
      var up := if n.y < 0.0 then -n.y else n.y;
      if up > GroundNormal then p.(canJump := true) else p
  }

  datatype MoveInput = MoveInput(forward: bool, backward: bool, left: bool, right: bool, run: bool, jump: bool)

  /** JavaScript `v || d` on a number. */
  function FalsyOr(v: Option<real>, d: real): real
  {
    if v.Some? && v.value != 0.0 then v.value else d
  }

  /** The Player Start's settings, if the scene has a marker that carries them. */
  function StartSettings(g: Graph): Option<PlayerSettings>
  {
    match FindPlayerStart(g, g.children)
    case None => None
    case Some(h) => g.nodes[h].playerSettings
  }

  /** The horizontal speed `updatePlayer` uses: the walk speed is overwritten with the
      run speed, so running and walking are equally fast. */
  function Speed(g: Graph, run: bool): (r: real)
    ensures StartSettings(g).None? ==> r == DefaultRunSpeed
    ensures StartSettings(g).Some? ==> r == FalsyOr(StartSettings(g).value.runSpeed, DefaultRunSpeed)
  {
    var settings := StartSettings(g);
    var moveSpeed := if settings.Some? then FalsyOr(settings.value.moveSpeed, DefaultMoveSpeed) else DefaultMoveSpeed;
    var runSpeed := if settings.Some? then FalsyOr(settings.value.runSpeed, DefaultRunSpeed) else DefaultRunSpeed;
    var moveSpeed' := runSpeed;
    if run then runSpeed else moveSpeed'
  }

  lemma RunMakesNoDifference(g: Graph)
    ensures Speed(g, true) == Speed(g, false)
  {
  }

  function Plus(a: Vec3, b: Vec3): Vec3 { Vec3(a.x + b.x, a.y + b.y, a.z + b.z) }
  function Minus(a: Vec3, b: Vec3): Vec3 { Vec3(a.x - b.x, a.y - b.y, a.z - b.z) }
  /** `lengthSq() > 0` on exact reals: the vector is not zero. */
  predicate NonZero(a: Vec3) { a != Vec3(0.0, 0.0, 0.0) }

  /** The sum of the pressed directions; `forward` and `right` are the camera's
      horizontal axes. */
  function MoveVector(ms: MoveInput, forward: Vec3, right: Vec3): (r: Vec3)
    ensures !(ms.forward || ms.backward || ms.left || ms.right) ==> r == Vec3(0.0, 0.0, 0.0)
  {
    var v0 := Vec3(0.0, 0.0, 0.0);
    var v1 := if ms.forward then Plus(v0, forward) else v0;
    var v2 := if ms.backward then Minus(v1, forward) else v1;
    var v3 := if ms.right then Plus(v2, right) else v2;
    if ms.left then Minus(v3, right) else v3
  }

  /** One frame of player control: the horizontal velocity is the run speed along
      the pressed directions, or zero without input; a jump is applied only when
      allowed and uses the permission up; the camera follows the body 0.8 above it. */
  function Steer(p: Player, g: Graph, ms: MoveInput, forward: Vec3, right: Vec3): (q: Player)
    ensures q.body == p.body
    ensures !(ms.forward || ms.backward || ms.left || ms.right) ==> q.horizontal == Stopped
    ensures q.horizontal.Heading? ==> q.horizontal.speed == Speed(g, false) && NonZero(q.horizontal.dir)
    ensures ms.jump && p.canJump ==> q.vy == JumpVelocity && !q.canJump
    ensures !(ms.jump && p.canJump) ==> q.vy == p.vy && q.canJump == p.canJump
    ensures q.camera == Vec3(p.body.position.x, p.body.position.y + CameraOffset, p.body.position.z)
  {
    var v := MoveVector(ms, forward, right);
    var h := if NonZero(v) then Heading(v, Speed(g, ms.run)) else Stopped;
    var jumps := ms.jump && p.canJump;
    Player(p.body, h, if jumps then JumpVelocity else p.vy, if jumps then false else p.canJump,
           Vec3(p.body.position.x, p.body.position.y + CameraOffset, p.body.position.z))
  }

  /** `updatePlayer`: nothing without a player, otherwise one `Steer` frame; the
      registry and the world are untouched. */
  function UpdatePlayer(s: State, g: Graph, ms: MoveInput, forward: Vec3, right: Vec3): (r: State)
    ensures s.player.None? ==> r == s
    ensures s.player.Some? ==> r == s.(player := Some(Steer(s.player.value, g, ms, forward, right)))
  {
    match s.player
    case None => s
    case Some(p) => s.(player := Some(Steer(p, g, ms, forward, right)))
  }

  /** Holding jump does not jump twice: the second frame needs a new ground contact. */
  lemma NoDoubleJump(s: State, g: Graph, ms: MoveInput, forward: Vec3, right: Vec3)
    requires s.player.Some? && ms.jump && s.player.value.canJump
    ensures var s1 := UpdatePlayer(s, g, ms, forward, right);
      var s2 := UpdatePlayer(s1, g, ms, forward, right);
      s2.player.value.vy == JumpVelocity && !s2.player.value.canJump
      && s2.player.value.vy == s1.player.value.vy
  {
  }

  /** A ground contact between two frames makes the next jump possible again. */
  lemma LandThenJump(s: State, g: Graph, ms: MoveInput, forward: Vec3, right: Vec3, n: Vec3)
    requires s.player.Some? && ms.jump && n.y > GroundNormal
    ensures var p := Collide(s.player.value, Some(n));
      var s2 := UpdatePlayer(s.(player := Some(p)), g, ms, forward, right);
      s2.player.value.vy == JumpVelocity && !s2.player.value.canJump
  {
  }

  // ---------------------------------------------------------------------------
  // Stepping

  /** Copy a dynamic body's position onto its mesh. */
  function SyncOne(g: Graph, p: Pair): (r: Graph)
    ensures r.nodes.Keys == g.nodes.Keys && r.children == g.children
    ensures forall x :: x in g.nodes && (x != p.mesh || p.body.mass <= 0.0) ==> r.nodes[x] == g.nodes[x]
    ensures p.body.mass > 0.0 && p.mesh in g.nodes ==> r.nodes[p.mesh] == g.nodes[p.mesh].(position := p.body.position)
  {
    if p.body.mass > 0.0 && p.mesh in g.nodes then
      g.(nodes := g.nodes[p.mesh := g.nodes[p.mesh].(position := p.body.position)])
    else g
  }

  /** The pose copy of `update`, pair by pair: a mesh that only has static bodies
      never moves. */
  function SyncAll(g: Graph, ps: seq<Pair>): (r: Graph)
    ensures r.nodes.Keys == g.nodes.Keys && r.children == g.children
    ensures forall x :: x in g.nodes && (forall i :: 0 <= i < |ps| && ps[i].mesh == x ==> ps[i].body.mass <= 0.0) ==>
      r.nodes[x] == g.nodes[x]
    decreases |ps|
  {
    if |ps| == 0 then g
    else
      var g1 := SyncOne(g, ps[0]);
      var r := SyncAll(g1, ps[1..]);
      assert forall x :: x in g.nodes && (forall i :: 0 <= i < |ps| && ps[i].mesh == x ==> ps[i].body.mass <= 0.0) ==>
        (forall i :: 0 <= i < |ps[1..]| && ps[1..][i].mesh == x ==> ps[1..][i].body.mass <= 0.0) by {
        forall i | 0 <= i < |ps[1..]|
          ensures ps[1..][i] == ps[i + 1]
        {
        }
      }
      r
  }

  /** A dynamic body whose mesh has no other body puts the mesh at the body's pose. */
  lemma {:induction false} SyncMovesDynamic(g: Graph, ps: seq<Pair>, i: nat)
    requires i < |ps| && ps[i].body.mass > 0.0 && ps[i].mesh in g.nodes
    requires forall j :: 0 <= j < |ps| && j != i ==> ps[j].mesh != ps[i].mesh
    ensures SyncAll(g, ps).nodes[ps[i].mesh].position == ps[i].body.position
    decreases |ps|
  {
    var g1 := SyncOne(g, ps[0]);
    if i == 0 {
      assert forall j :: 0 <= j < |ps[1..]| ==> ps[1..][j] == ps[j + 1];
    } else {
      SyncMovesDynamic(g1, ps[1..], i - 1);
    }
  }

  /** `update(delta)`: the solver moves every body in the world, the player's
      included (`stepped` gives each body's new position), then each dynamic body's
      mesh takes its body's position. The player's mesh-free capsule is not synced
      here; the player controller reads its body itself. */
  function Update(s: State, g: Graph, stepped: BodyId -> Vec3): (r: (State, Graph))
    ensures r.0.world == s.world && r.0.nextBody == s.nextBody
    ensures r.0.player.Some? <==> s.player.Some?
    ensures s.player.Some? ==>
      r.0.player.value == s.player.value.(body := s.player.value.body.(position := stepped(s.player.value.body.id)))
    ensures Meshes(r.0.objects) == Meshes(s.objects)
    ensures forall i :: 0 <= i < |s.objects| ==>
      r.0.objects[i].body == s.objects[i].body.(position := stepped(s.objects[i].body.id))
    ensures r.1 == SyncAll(g, r.0.objects)
  {
    var ps := seq(|s.objects|, i requires 0 <= i < |s.objects| =>
      s.objects[i].(body := s.objects[i].body.(position := stepped(s.objects[i].body.id))));
    var player := match s.player
      case None => None
      case Some(p) => Some(p.(body := p.body.(position := stepped(p.body.id))));
    (s.(objects := ps, player := player), SyncAll(g, ps))
  }

  /** The solver step keeps the world consistent: it moves bodies, never adds, drops
      or renumbers one. */
  lemma UpdateValid(s: State, g: Graph, stepped: BodyId -> Vec3)
    requires Valid(s)
    ensures Valid(Update(s, g, stepped).0)
  {
    var r := Update(s, g, stepped).0;
    assert forall i :: 0 <= i < |s.objects| ==> r.objects[i].body.id == s.objects[i].body.id;
  }

  /** Static objects stay where they are whatever the solver does. */
  lemma StaticNeverMoves(s: State, g: Graph, stepped: BodyId -> Vec3, h: Handle)
    requires h in g.nodes
    requires forall i :: 0 <= i < |s.objects| && s.objects[i].mesh == h ==> s.objects[i].body.mass == 0.0
    ensures Update(s, g, stepped).1.nodes[h] == g.nodes[h]
  {
  }
}
