/** The play window's player controller (`PlayerController`): settings with their
    defaults, the key-to-movement table, jumping, and one frame of steering. The
    body's simulation and the camera's rotation are not modelled; the rotation that
    turns the input into the view direction is a parameter. */
module PlayerControl {
  import opened Wrappers
  import opened Text
  import opened SceneGraph

  /** The settings after defaulting; every field is present. */
  datatype Settings = Settings(
    moveSpeed: real, runSpeed: real, jumpHeight: real, cameraHeight: real, fov: real,
    mouseSensitivity: real, playerMass: real, playerHeight: real, playerRadius: real)

  const Defaults: Settings := Settings(5.0, 8.0, 5.0, 1.7, 75.0, 0.002, 70.0, 1.8, 0.4)

  /** `settings.x ??= default` for every field: a present value is kept, even zero. */
  function Resolve(ps: Option<PlayerSettings>): (r: Settings)
    ensures ps.None? ==> r == Defaults
    ensures ps.Some? ==>
      r.moveSpeed == ps.value.moveSpeed.GetOr(Defaults.moveSpeed)
      && r.runSpeed == ps.value.runSpeed.GetOr(Defaults.runSpeed)
      && r.jumpHeight == ps.value.jumpHeight.GetOr(Defaults.jumpHeight)
      && r.cameraHeight == ps.value.cameraHeight.GetOr(Defaults.cameraHeight)
      && r.fov == ps.value.fov.GetOr(Defaults.fov)
      && r.mouseSensitivity == ps.value.mouseSensitivity.GetOr(Defaults.mouseSensitivity)
      && r.playerMass == ps.value.playerMass.GetOr(Defaults.playerMass)
      && r.playerHeight == ps.value.playerHeight.GetOr(Defaults.playerHeight)
      && r.playerRadius == ps.value.playerRadius.GetOr(Defaults.playerRadius)
  {
    var p := ps.GetOr(NoSettings());
    Settings(p.moveSpeed.GetOr(5.0), p.runSpeed.GetOr(8.0), p.jumpHeight.GetOr(5.0),
             p.cameraHeight.GetOr(1.7), p.fov.GetOr(75.0), p.mouseSensitivity.GetOr(0.002),
             p.playerMass.GetOr(70.0), p.playerHeight.GetOr(1.8), p.playerRadius.GetOr(0.4))
  }

  /** The settings written back as a saved, complete `playerSettings` object. */
  function Saved(s: Settings): PlayerSettings
  {
    PlayerSettings(Some(s.moveSpeed), Some(s.runSpeed), Some(s.jumpHeight), Some(s.cameraHeight),
                   Some(s.fov), Some(s.mouseSensitivity), Some(s.playerMass), Some(s.playerHeight),
                   Some(s.playerRadius))
  }

  /** Complete settings come back unchanged, and defaulting twice changes nothing. */
  lemma ResolveRoundTrip(s: Settings, ps: Option<PlayerSettings>)
    ensures Resolve(Some(Saved(s))) == s
    ensures Resolve(Some(Saved(Resolve(ps)))) == Resolve(ps)
  {
  }

  /** Unlike `||`, `??` keeps an explicit zero: a saved walk speed of 0 stays 0. */
  lemma ZeroSpeedKept(ps: PlayerSettings)
    requires ps.moveSpeed == Some(0.0)
    ensures Resolve(Some(ps)).moveSpeed == 0.0
  {
  }

  datatype MoveState = MoveState(forward: bool, backward: bool, left: bool, right: bool, run: bool)

  const Still: MoveState := MoveState(false, false, false, false, false)

  datatype Controller = Controller(
    settings: Settings, moves: MoveState, canJump: bool, locked: bool,
    body: Vec3, velocity: Vec3, camera: Vec3)

  /** `initPhysicsBody`: the capsule's centre sits half the player's height above the
      Player Start marker. */
  function Spawn(s: Settings, start: Vec3): (r: Vec3)
    ensures r.x == start.x && r.z == start.z && r.y - start.y == s.playerHeight / 2.0
  {
    Vec3(start.x, start.y + s.playerHeight / 2.0, start.z)
  }

  /** The constructor: defaulted settings, nothing pressed, no jump until the first
      ground contact, pointer not yet locked. */
  function New(ps: Option<PlayerSettings>, start: Vec3, camera: Vec3): (c: Controller)
    ensures c.settings == Resolve(ps) && c.moves == Still && !c.canJump && !c.locked
    ensures c.body == Spawn(c.settings, start)
  {
    var s := Resolve(ps);
    Controller(s, Still, false, false, Spawn(s, start), Vec3(0.0, 0.0, 0.0), camera)
  }

  /** The shape classes cannon-es exports. There is no capsule among them. */
  const PhysicsShapes: set<string> :=
    {"Sphere", "Plane", "Box", "Cylinder", "ConvexPolyhedron", "Particle", "Heightfield", "Trimesh"}

  /** The constructor as written: `initPhysicsBody` calls `new CANNON.Capsule(...)`, so
      construction throws unless the physics library, whose shape classes are `shapes`,
      has a `Capsule`; otherwise it is `New`. */
  function Construct(ps: Option<PlayerSettings>, start: Vec3, camera: Vec3, shapes: set<string>): (r: Option<Controller>)
    ensures r.None? <==> "Capsule" !in shapes
    ensures r.Some? ==> r.value.settings == Resolve(ps) && r.value.body == Spawn(r.value.settings, start)
  {
    if "Capsule" in shapes then Some(New(ps, start, camera)) else None
  }

  /** `jump()`: the permission is used up and the body rises at `jumpHeight`. */
  function Jump(c: Controller): (r: Controller)
    ensures !r.canJump && r.velocity.y == c.settings.jumpHeight
    ensures r.velocity.x == c.velocity.x && r.velocity.z == c.velocity.z
    ensures r == c.(canJump := false, velocity := r.velocity)
  {
    c.(canJump := false, velocity := c.velocity.(y := c.settings.jumpHeight))
  }

  /** `onKey(e.key.toLowerCase(), isPressed)`: w, s, a, d and shift follow the key;
      space jumps on a press when allowed; every other key is ignored. */
  function OnKey(c: Controller, key: string, pressed: bool): (r: Controller)
    ensures ToLower(key) == "w" ==> r == c.(moves := c.moves.(forward := pressed))
    ensures ToLower(key) == "s" ==> r == c.(moves := c.moves.(backward := pressed))
    ensures ToLower(key) == "a" ==> r == c.(moves := c.moves.(left := pressed))
    ensures ToLower(key) == "d" ==> r == c.(moves := c.moves.(right := pressed))
    ensures ToLower(key) == "shift" ==> r == c.(moves := c.moves.(run := pressed))
    ensures ToLower(key) == " " ==> r == (if pressed && c.canJump then Jump(c) else c)
    ensures ToLower(key) !in {"w", "s", "a", "d", "shift", " "} ==> r == c
  {
    var k := ToLower(key);
    if k == "w" then c.(moves := c.moves.(forward := pressed))
    else if k == "s" then c.(moves := c.moves.(backward := pressed))
    else if k == "a" then c.(moves := c.moves.(left := pressed))
    else if k == "d" then c.(moves := c.moves.(right := pressed))
    else if k == "shift" then c.(moves := c.moves.(run := pressed))
    else if k == " " then (if pressed && c.canJump then Jump(c) else c)
    else c
  }

  /** Pressing and releasing a movement key leaves the movement state as it was with
      that key up. */
  lemma PressRelease(c: Controller, key: string)
    requires ToLower(key) in {"w", "s", "a", "d", "shift"}
    ensures OnKey(OnKey(c, key, true), key, false) == OnKey(c, key, false)
  {
  }

  /** The listener for a collision: a contact from below (normal y above 0.5) allows
      a jump again. */
  function Collide(c: Controller, normalY: real): (r: Controller)
    ensures r.canJump <==> c.canJump || normalY > 0.5
    ensures r == c.(canJump := r.canJump)
  {
    if normalY > 0.5 then c.(canJump := true) else c
  }

  /** The input velocity in camera space: backward overrides forward and right
      overrides left, at the run speed while running. */
  function InputVelocity(s: Settings, m: MoveState): (v: Vec3)
    ensures var speed := if m.run then s.runSpeed else s.moveSpeed;
      v.y == 0.0
      && v.z == (if m.backward then speed else if m.forward then -speed else 0.0)
      && v.x == (if m.right then speed else if m.left then -speed else 0.0)
  {
    var speed := if m.run then s.runSpeed else s.moveSpeed;
    var z1 := if m.forward then -speed else 0.0;
    var z2 := if m.backward then speed else z1;
    var x1 := if m.left then -speed else 0.0;
    var x2 := if m.right then speed else x1;
    Vec3(x2, 0.0, z2)
  }

  /** `update(delta)`: nothing until the pointer is locked; then the horizontal body
      velocity is the rotated input velocity, the vertical velocity is left to the
      solver, and the camera sits `cameraHeight - playerHeight / 2` above the body. */
  function Update(c: Controller, rotate: Vec3 -> Vec3): (r: Controller)
    ensures !c.locked ==> r == c
    ensures c.locked ==>
      var v := rotate(InputVelocity(c.settings, c.moves));
      r == c.(velocity := Vec3(v.x, c.velocity.y, v.z), camera := r.camera)
      && r.camera == Vec3(c.body.x, c.body.y + c.settings.cameraHeight - c.settings.playerHeight / 2.0, c.body.z)
  {
    if !c.locked then c
    else
      var v := rotate(InputVelocity(c.settings, c.moves));
      c.(velocity := Vec3(v.x, c.velocity.y, v.z),
         camera := Vec3(c.body.x, c.body.y + c.settings.cameraHeight - c.settings.playerHeight / 2.0, c.body.z))
  }

  /** At the spawn point the camera is `cameraHeight` above the Player Start marker. */
  lemma SpawnCameraHeight(ps: Option<PlayerSettings>, start: Vec3, camera: Vec3, rotate: Vec3 -> Vec3)
    ensures var c := New(ps, start, camera).(locked := true);
      Update(c, rotate).camera.y == start.y + c.settings.cameraHeight
  {
  }

  /** With nothing pressed the player stands still horizontally. */
  lemma NoInputNoMotion(s: Settings, run: bool)
    ensures InputVelocity(s, Still.(run := run)) == Vec3(0.0, 0.0, 0.0)
  {
  }
}
