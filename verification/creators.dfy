/** The object factories of the editor: `createPrimitive` and `createLight`. Each
    validates its type name and returns nothing for an unknown one. */
module Creators {
  import opened Wrappers
  import opened SceneGraph

  /** `-Math.PI / 2` as a double. */
  const NegHalfPi: real := -1.5707963267948966

  const PrimitiveColor: nat := 0xbfbfbf
  const PointLightColor: nat := 0xfff0dd
  const PointLightIntensity: real := 5.0
  const DirectionalLightColor: nat := 0xffffff
  const DirectionalLightIntensity: real := 1.5

  function PrimitiveName(p: PrimitiveType): string
  {
    match p
    case Cube => "cube"
    case Sphere => "sphere"
    case Plane => "plane"
  }

  function LightName(l: LightType): string
  {
    match l
    case Point => "point"
    case Directional => "directional"
  }

  /** Membership in `PRIMITIVE_TYPES` = {'cube', 'sphere', 'plane'}. */
  function ParsePrimitive(s: string): (r: Option<PrimitiveType>)
    ensures r.Some? ==> PrimitiveName(r.value) == s
    ensures r.None? ==> s != "cube" && s != "sphere" && s != "plane"
  {
    if s == "cube" then Some(Cube)
    else if s == "sphere" then Some(Sphere)
    else if s == "plane" then Some(Plane)
    else None
  }

  /** Membership in `LIGHT_TYPES` = {'point', 'directional'}. */
  function ParseLight(s: string): (r: Option<LightType>)
    ensures r.Some? ==> LightName(r.value) == s
    ensures r.None? ==> s != "point" && s != "directional"
  {
    if s == "point" then Some(Point)
    else if s == "directional" then Some(Directional)
    else None
  }

  /** Type names and their parsers are inverse to each other. */
  lemma TypeNamesRoundTrip(p: PrimitiveType, l: LightType)
    ensures ParsePrimitive(PrimitiveName(p)) == Some(p)
    ensures ParseLight(LightName(l)) == Some(l)
  {
  }

  function GeometryOf(p: PrimitiveType): Geometry
  {
    match p
    case Cube => BoxGeometry
    case Sphere => SphereGeometry
    case Plane => PlaneGeometry
  }

  /** `createPrimitive(type)`: a shadowed mesh at (0, 1, 0) named after its type; only
      the plane is turned flat. `uuid` is the fresh identifier three.js draws. */
  function CreatePrimitive(typ: string, uuid: string): (r: Option<Node>)
    ensures r.Some? <==> ParsePrimitive(typ).Some?
    ensures r.Some? ==> var n := r.value; var p := ParsePrimitive(typ).value;
      n.name == typ && n.uuid == uuid && n.geometry == Some(GeometryOf(p)) && n.light.None?
      && n.position == Vec3(0.0, 1.0, 0.0) && n.castShadow && n.receiveShadow
      && n.parent.None? && n.flags == NoFlags() && n.physics.None?
      && (n.rotation.x != 0.0 <==> p == Plane)
  {
    match ParsePrimitive(typ)
    case None => None
    case Some(p) =>
      var rot := if p == Plane then Vec3(NegHalfPi, 0.0, 0.0) else Vec3(0.0, 0.0, 0.0);
      Some(Node(uuid, typ, "Mesh", None, Some(GeometryOf(p)), None,
                Vec3(0.0, 1.0, 0.0), rot, Vec3(1.0, 1.0, 1.0), true, true,
                PrimitiveColor, 0.0, NoFlags(), None, None, None))
  }

  /** A light and the helper child it carries. */
  datatype LightPair = LightPair(light: Node, helper: Node)

  /** `createLight(type)`: a shadow-casting light named `<type>Light` at (2, 4, 2) with
      exactly one child, its helper, flagged `isHelper`. The helper's parent link is
      set when the pair is put into the scene. */
  function CreateLight(typ: string, uuid: string, helperUuid: string): (r: Option<LightPair>)
    ensures r.Some? <==> ParseLight(typ).Some?
    ensures r.Some? ==> var n := r.value.light; var l := ParseLight(typ).value;
      n.name == typ + "Light" && n.uuid == uuid && n.light == Some(l)
      && n.position == Vec3(2.0, 4.0, 2.0) && n.castShadow
      && n.parent.None? && n.flags == NoFlags()
      && (l == Point ==> n.color == PointLightColor && n.intensity == PointLightIntensity)
      && (l == Directional ==> n.color == DirectionalLightColor && n.intensity == DirectionalLightIntensity)
    ensures r.Some? ==> r.value.helper.flags.isHelper && !r.value.helper.flags.isEditorObject
  {
    match ParseLight(typ)
    case None => None
    case Some(l) =>
      var color := if l == Point then PointLightColor else DirectionalLightColor;
      var intensity := if l == Point then PointLightIntensity else DirectionalLightIntensity;
      var typeName := if l == Point then "PointLight" else "DirectionalLight";
      var light := Node(uuid, typ + "Light", typeName, None, None, Some(l),
                        Vec3(2.0, 4.0, 2.0), Vec3(0.0, 0.0, 0.0), Vec3(1.0, 1.0, 1.0), true, false,
                        color, intensity, NoFlags(), None, None, None);
      var helper := Node(helperUuid, "", "Object3D", None, None, None,
                         Vec3(0.0, 0.0, 0.0), Vec3(0.0, 0.0, 0.0), Vec3(1.0, 1.0, 1.0), false, false,
                         color, 0.0, NoFlags().(isHelper := true), None, None, None);
      Some(LightPair(light, helper))
  }

  /** The two factories accept disjoint sets of type names. */
  lemma FactoriesDisjoint(typ: string, uuid: string, helperUuid: string)
    ensures !(CreatePrimitive(typ, uuid).Some? && CreateLight(typ, uuid, helperUuid).Some?)
  {
  }
}
