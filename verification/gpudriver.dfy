/** The kernel's GPU driver for the HTML renderer (`GPUDriverImpl`, `GPUDriverD3D11`):
    the id counters, the stored command list and its dispatch, and the bookkeeping of
    the texture, render-target and geometry maps. Direct3D resource creation, pixel
    copies and draw state are not modelled; what the driver hands to the device is
    recorded in a log. A fatal error ends the process, so it is an `Err` result. */
module GpuDriver {
  import opened Wrappers

  // ---------------------------------------------------------------------------
  // Id counters

  /** `uint32_t` arithmetic. */
  const U32: nat := 0x1_0000_0000

  function Inc32(x: nat): (r: nat)
    requires x < U32
    ensures r < U32 && (x + 1 < U32 ==> r == x + 1) && (x + 1 == U32 ==> r == 0)
  {
    (x + 1) % U32
  }

  datatype IdKind = TextureId | RenderBufferId | GeometryId

  /** `next_texture_id_`, `next_render_buffer_id_` and `next_geometry_id_`. */
  datatype Counters = Counters(texture: nat, renderBuffer: nat, geometry: nat)
  {
    ghost predicate Valid() { texture < U32 && renderBuffer < U32 && geometry < U32 }

    function Of(k: IdKind): nat
    {
      match k
      case TextureId => texture
      case RenderBufferId => renderBuffer
      case GeometryId => geometry
    }
  }

  /** All three counters start at 1; 0 is the default render target. */
  const InitialCounters: Counters := Counters(1, 1, 1)

  /** `NextTextureId()`, `NextRenderBufferId()`, `NextGeometryId()`: the counter's value,
      which is then advanced. The render-buffer id comes from its own counter here; see
      `NextIdAsWritten` for the code as written. */
  function NextId(c: Counters, k: IdKind): (r: (nat, Counters))
    requires c.Valid()
    ensures r.0 == c.Of(k) && r.1.Valid()
    ensures r.1.Of(k) == Inc32(c.Of(k))
    ensures forall j :: j != k ==> r.1.Of(j) == c.Of(j)
  {
    match k
    case TextureId => (c.texture, c.(texture := Inc32(c.texture)))
    case RenderBufferId => (c.renderBuffer, c.(renderBuffer := Inc32(c.renderBuffer)))
    case GeometryId => (c.geometry, c.(geometry := Inc32(c.geometry)))
  }

  /** The code as written: `NextRenderBufferId()` advances the geometry counter, and
      the render-buffer counter is never used. */
  function NextIdAsWritten(c: Counters, k: IdKind): (r: (nat, Counters))
    requires c.Valid()
    ensures k != RenderBufferId ==> r == NextId(c, k)
    ensures k == RenderBufferId ==> r == NextId(c, GeometryId)
  {
    if k == RenderBufferId then NextId(c, GeometryId) else NextId(c, k)
  }

  /** A render-buffer id taken before the first geometry id shifts every geometry id:
      the first geometry gets 2, and the render-buffer counter stays at 1. */
  lemma SharedCounterShiftsGeometryIds()
    ensures var (rb, c1) := NextIdAsWritten(InitialCounters, RenderBufferId);
      var (g, c2) := NextIdAsWritten(c1, GeometryId);
      rb == 1 && g == 2 && c2.renderBuffer == 1
    ensures var (rb, c1) := NextId(InitialCounters, RenderBufferId);
      var (g, c2) := NextId(c1, GeometryId);
      rb == 1 && g == 1 && c2.renderBuffer == 2
  {
  }

  function Count(ks: seq<IdKind>, k: IdKind): (n: nat)
    ensures n <= |ks|
  {
    if |ks| == 0 then 0 else Count(ks[..|ks| - 1], k) + (if ks[|ks| - 1] == k then 1 else 0)
  }

  /** The ids a run of requests receives, and the counters after it, each kind on its
      own counter (the corrected numbering; `IssueAsWritten` is the code as written). */
  function Issue(c: Counters, ks: seq<IdKind>): (r: (seq<nat>, Counters))
    requires c.Valid()
    ensures |r.0| == |ks| && r.1.Valid()
    decreases |ks|
  {
    if |ks| == 0 then ([], c)
    else
      var (ids, c1) := Issue(c, ks[..|ks| - 1]);
      var (id, c2) := NextId(c1, ks[|ks| - 1]);
      (ids + [id], c2)
  }

  /** Each kind of id is numbered on its own: while no counter wraps, the i-th request
      gets its counter's starting value plus the number of earlier requests of the
      same kind. */
  lemma {:induction false} IssueNumbersEachKind(c: Counters, ks: seq<IdKind>)
    requires c.Valid() && c.texture + |ks| < U32 && c.renderBuffer + |ks| < U32 && c.geometry + |ks| < U32
    ensures forall k :: Issue(c, ks).1.Of(k) == c.Of(k) + Count(ks, k)
    ensures forall i :: 0 <= i < |ks| ==> Issue(c, ks).0[i] == c.Of(ks[i]) + Count(ks[..i], ks[i])
    decreases |ks|
  {
    if |ks| > 0 {
      var n := |ks| - 1;
      var front := ks[..n];
      IssueNumbersEachKind(c, front);
      var (ids, c1) := Issue(c, front);
      assert ks[..|ks| - 1] == front;
      forall i | 0 <= i < |ks|
        ensures Issue(c, ks).0[i] == c.Of(ks[i]) + Count(ks[..i], ks[i])
      {
        if i < n {
          assert ks[..i] == front[..i];
          assert Issue(c, ks).0[i] == ids[i];
        } else {
          assert ks[..i] == front;
        }
      }
    }
  }

  /** From the start, the texture ids handed out are 1, 2, 3, ... however texture,
      render-buffer and geometry requests interleave. */
  lemma TextureIdsConsecutive(ks: seq<IdKind>, i: nat)
    requires i < |ks| && ks[i] == TextureId && |ks| < U32 - 1
    ensures Issue(InitialCounters, ks).0[i] == 1 + Count(ks[..i], TextureId)
  {
    IssueNumbersEachKind(InitialCounters, ks);
  }

  /** Two requests of the same kind never receive the same id, and none receives the
      reserved 0, while fewer than 2^32 - 1 ids are requested. */
  lemma IdsOfAKindDistinct(ks: seq<IdKind>, i: nat, j: nat)
    requires i < j < |ks| && ks[i] == ks[j] && |ks| < U32 - 1
    ensures Issue(InitialCounters, ks).0[i] != Issue(InitialCounters, ks).0[j]
    ensures Issue(InitialCounters, ks).0[i] != 0
  {
    IssueNumbersEachKind(InitialCounters, ks);
    CountGrows(ks[..j], i, ks[i]);
    assert ks[..j][..i] == ks[..i];
  }

  lemma {:induction false} CountGrows(ks: seq<IdKind>, i: nat, k: IdKind)
    requires i < |ks| && ks[i] == k
    ensures Count(ks, k) > Count(ks[..i], k)
    decreases |ks|
  {
    if i < |ks| - 1 {
      CountGrows(ks[..|ks| - 1], i, k);
      assert ks[..|ks| - 1][..i] == ks[..i];
    } else {
      assert ks[..|ks| - 1] == ks[..i];
    }
  }

  /** The counter a request draws on as written: render buffers share the geometry
      counter. */
  function Shared(k: IdKind): (r: IdKind)
    ensures r != RenderBufferId
    ensures k != RenderBufferId ==> r == k
  {
    if k == RenderBufferId then GeometryId else k
  }

  function Merged(ks: seq<IdKind>): (r: seq<IdKind>)
    ensures |r| == |ks| && forall i :: 0 <= i < |ks| ==> r[i] == Shared(ks[i])
  {
    seq(|ks|, i requires 0 <= i < |ks| => Shared(ks[i]))
  }

  /** The ids a run of requests receives from the code as written. */
  function IssueAsWritten(c: Counters, ks: seq<IdKind>): (r: (seq<nat>, Counters))
    requires c.Valid()
    ensures |r.0| == |ks| && r.1.Valid()
    decreases |ks|
  {
    if |ks| == 0 then ([], c)
    else
      var (ids, c1) := IssueAsWritten(c, ks[..|ks| - 1]);
      var (id, c2) := NextIdAsWritten(c1, ks[|ks| - 1]);
      (ids + [id], c2)
  }

  /** As written, a run of requests is numbered as if every render-buffer request were
      a geometry request, and the render-buffer counter never moves. */
  lemma {:induction false} IssueAsWrittenMerges(c: Counters, ks: seq<IdKind>)
    requires c.Valid()
    ensures IssueAsWritten(c, ks) == Issue(c, Merged(ks))
    ensures IssueAsWritten(c, ks).1.renderBuffer == c.renderBuffer
    decreases |ks|
  {
    if |ks| > 0 {
      var n := |ks| - 1;
      IssueAsWrittenMerges(c, ks[..n]);
      assert Merged(ks)[..n] == Merged(ks[..n]);
    }
  }

  /** From the start, the code as written numbers textures 1, 2, 3, ... and puts render
      buffers and geometry on one shared run 1, 2, 3, ...; within that run no id
      repeats, so a render buffer and a geometry never share an id either. */
  lemma IssueAsWrittenNumbers(ks: seq<IdKind>, i: nat, j: nat)
    requires i < j < |ks| && |ks| < U32 - 1
    ensures IssueAsWritten(InitialCounters, ks).0[i] == 1 + Count(Merged(ks)[..i], Shared(ks[i]))
    ensures Shared(ks[i]) == Shared(ks[j]) ==>
      IssueAsWritten(InitialCounters, ks).0[i] != IssueAsWritten(InitialCounters, ks).0[j]
  {
    IssueAsWrittenMerges(InitialCounters, ks);
    IssueNumbersEachKind(InitialCounters, Merged(ks));
    if Shared(ks[i]) == Shared(ks[j]) {
      IdsOfAKindDistinct(Merged(ks), i, j);
    }
  }

  // ---------------------------------------------------------------------------
  // Driver state

  datatype BitmapFormat = BGRA8Srgb | A8 | OtherFormat(code: nat)

  /** What the driver reads of a bitmap: its format and whether it has no pixels (a
      render target's backing store). */
  datatype Bitmap = Bitmap(format: BitmapFormat, empty: bool)

  datatype VertexFormat = Format2f4ub2f | Format2f4ub2f2f28f

  /** A texture entry: whether it is a multisampled render target and whether its
      resolve copy is stale. */
  datatype Texture = Texture(msaa: bool, needsResolve: bool)

  /** What the driver hands to the device. `Cleared(0)` clears the default target. */
  datatype Call = Drew(geometry: nat, count: nat, offset: nat) | Cleared(target: nat)

  datatype Fatal =
    | TextureExists | UnsupportedFormat | UnknownTexture
    | ReservedRenderBuffer | RenderBufferExists | UnknownRenderBuffer
    | GeometryExists | UnknownGeometry

  datatype CommandType = DrawGeometry | ClearRenderBuffer | OtherCommand(code: nat)

  /** A command of the command list, with the parts of its GPU state the driver reads:
      the target render buffer and the two texture slots (0 for none). */
  datatype Command = Command(
    kind: CommandType, geometry: nat, count: nat, offset: nat,
    renderBuffer: nat, texture1: nat, texture2: nat)

  /** `msaa` is the `ENABLE_MSAA` build switch. `targets` maps a render buffer to the
      texture it draws into; `resolves` lists the textures resolved, in order. */
  datatype Driver = Driver(
    msaa: bool, textures: map<nat, Texture>, targets: map<nat, nat>,
    geometries: map<nat, VertexFormat>, counters: Counters, commands: seq<Command>,
    log: seq<Call>, resolves: seq<nat>)

  function New(msaa: bool): (d: Driver)
    ensures d.textures == map[] && d.targets == map[] && d.geometries == map[]
    ensures d.counters == InitialCounters && d.commands == [] && d.log == []
  {
    Driver(msaa, map[], map[], map[], InitialCounters, [], [], [])
  }

  // ---------------------------------------------------------------------------
  // Textures, render buffers, geometry

  predicate Supported(f: BitmapFormat)
  {
    f == BGRA8Srgb || f == A8
  }

  /** `CreateTexture`: fatal for an existing id or an unsupported format; otherwise an
      entry, a multisampled render target exactly when the bitmap is empty and MSAA
      is built in. */
  function CreateTexture(d: Driver, id: nat, b: Bitmap): (r: Result<Driver, Fatal>)
    ensures r.Ok? <==> id !in d.textures && Supported(b.format)
    ensures id in d.textures ==> r == Err(TextureExists)
    ensures id !in d.textures && !Supported(b.format) ==> r == Err(UnsupportedFormat)
    ensures r.Ok? ==> r.value == d.(textures := d.textures[id := Texture(d.msaa && b.empty, false)])
  {
    if id in d.textures then Err(TextureExists)
    else if !Supported(b.format) then Err(UnsupportedFormat)
    else Ok(d.(textures := d.textures[id := Texture(d.msaa && b.empty, false)]))
  }

  /** `UpdateTexture`: fatal for an unknown id; the pixel copy is not modelled. */
  function UpdateTexture(d: Driver, id: nat): (r: Result<Driver, Fatal>)
    ensures r.Ok? <==> id in d.textures
    ensures r.Ok? ==> r.value == d
    ensures r.Err? ==> r.error == UnknownTexture
  {
    if id in d.textures then Ok(d) else Err(UnknownTexture)
  }

  /** `DestroyTexture`: the entry goes if present. */
  function DestroyTexture(d: Driver, id: nat): (r: Driver)
    ensures id !in r.textures && r.textures.Keys == d.textures.Keys - {id}
    ensures id !in d.textures ==> r == d
    ensures r == d.(textures := r.textures)
  {
    d.(textures := d.textures - {id})
  }

  /** `CreateRenderBuffer`: fatal for id 0, an existing id or an unknown texture;
      otherwise the buffer remembers its texture. */
  function CreateRenderBuffer(d: Driver, id: nat, texture: nat): (r: Result<Driver, Fatal>)
    ensures r.Ok? <==> id != 0 && id !in d.targets && texture in d.textures
    ensures id == 0 ==> r == Err(ReservedRenderBuffer)
    ensures id != 0 && id in d.targets ==> r == Err(RenderBufferExists)
    ensures id != 0 && id !in d.targets && texture !in d.textures ==> r == Err(UnknownTexture)
    ensures r.Ok? ==> r.value == d.(targets := d.targets[id := texture])
  {
    if id == 0 then Err(ReservedRenderBuffer)
    else if id in d.targets then Err(RenderBufferExists)
    else if texture !in d.textures then Err(UnknownTexture)
    else Ok(d.(targets := d.targets[id := texture]))
  }

  function DestroyRenderBuffer(d: Driver, id: nat): (r: Driver)
    ensures id !in r.targets && r.targets.Keys == d.targets.Keys - {id}
    ensures id !in d.targets ==> r == d
    ensures r == d.(targets := r.targets)
  {
    d.(targets := d.targets - {id})
  }

  /** `CreateGeometry`: fatal for an existing id; otherwise exactly one entry more. */
  function CreateGeometry(d: Driver, id: nat, format: VertexFormat): (r: Result<Driver, Fatal>)
    ensures r.Ok? <==> id !in d.geometries
    ensures r.Err? ==> r.error == GeometryExists
    ensures r.Ok? ==> (r.value == d.(geometries := d.geometries[id := format])
                       && |r.value.geometries| == |d.geometries| + 1)
  {
    if id in d.geometries then Err(GeometryExists)
    else Ok(d.(geometries := d.geometries[id := format]))
  }

  function UpdateGeometry(d: Driver, id: nat): (r: Result<Driver, Fatal>)
    ensures r.Ok? <==> id in d.geometries
    ensures r.Ok? ==> r.value == d
    ensures r.Err? ==> r.error == UnknownGeometry
  {
    if id in d.geometries then Ok(d) else Err(UnknownGeometry)
  }

  function DestroyGeometry(d: Driver, id: nat): (r: Driver)
    ensures id !in r.geometries && r.geometries.Keys == d.geometries.Keys - {id}
    ensures id !in d.geometries ==> r == d
    ensures r == d.(geometries := r.geometries)
  {
    d.(geometries := d.geometries - {id})
  }

  /** Creating and then destroying a texture restores the map; creating it twice is
      fatal. */
  lemma TextureRoundTrip(d: Driver, id: nat, b: Bitmap)
    requires CreateTexture(d, id, b).Ok?
    ensures DestroyTexture(CreateTexture(d, id, b).value, id).textures == d.textures
    ensures CreateTexture(CreateTexture(d, id, b).value, id, b) == Err(TextureExists)
  {
    assert DestroyTexture(CreateTexture(d, id, b).value, id).textures == d.textures - {id};
  }

  lemma RenderBufferRoundTrip(d: Driver, id: nat, texture: nat)
    requires CreateRenderBuffer(d, id, texture).Ok?
    ensures DestroyRenderBuffer(CreateRenderBuffer(d, id, texture).value, id).targets == d.targets
    ensures CreateRenderBuffer(CreateRenderBuffer(d, id, texture).value, id, texture) == Err(RenderBufferExists)
  {
    var d1 := CreateRenderBuffer(d, id, texture).value;
    assert id !in d.targets;
    assert d1.targets - {id} == d.targets;
  }

  lemma GeometryRoundTrip(d: Driver, id: nat, format: VertexFormat)
    requires CreateGeometry(d, id, format).Ok?
    ensures DestroyGeometry(CreateGeometry(d, id, format).value, id).geometries == d.geometries
    ensures CreateGeometry(CreateGeometry(d, id, format).value, id, format) == Err(GeometryExists)
  {
    var d1 := CreateGeometry(d, id, format).value;
    assert d1.geometries == d.geometries[id := format];
    assert id !in d.geometries;
    assert d1.geometries - {id} == d.geometries;
  }

  /** `GetAddressOfShaderResourceView`: the texture of a view's render target, or null. */
  function ShaderResourceView(d: Driver, texture: nat): (r: Option<Texture>)
    ensures r.Some? <==> texture in d.textures
    ensures r.Some? ==> r.value == d.textures[texture]
  {
    if texture in d.textures then Some(d.textures[texture]) else None
  }

  // ---------------------------------------------------------------------------
  // Binding and clearing

  /** A render buffer that can be drawn into or cleared: the default target, or a known
      buffer whose texture, with MSAA, is known too. */
  predicate TargetOk(d: Driver, rb: nat)
  {
    rb == 0 || (rb in d.targets && (!d.msaa || d.targets[rb] in d.textures))
  }

  /** With MSAA, drawing into or clearing a render buffer makes its texture stale. */
  function MarkStale(d: Driver, rb: nat): (r: Driver)
    requires TargetOk(d, rb)
    ensures r.textures.Keys == d.textures.Keys
    ensures r == d.(textures := r.textures)
    ensures d.msaa && rb != 0 ==> r.textures[d.targets[rb]].needsResolve
  {
    if rb == 0 || !d.msaa then d
    else
      var t := d.targets[rb];
      d.(textures := d.textures[t := d.textures[t].(needsResolve := true)])
  }

  /** `_BindRenderBuffer`: the default target for 0; fatal for an unknown buffer or,
      with MSAA, an unknown texture behind it. */
  function BindRenderBuffer(d: Driver, rb: nat): (r: Result<Driver, Fatal>)
    ensures r.Ok? <==> TargetOk(d, rb)
    ensures r.Ok? ==> r.value == MarkStale(d, rb)
    ensures rb != 0 && rb !in d.targets ==> r == Err(UnknownRenderBuffer)
  {
    if rb == 0 then Ok(d)
    else if rb !in d.targets then Err(UnknownRenderBuffer)
    else if d.msaa && d.targets[rb] !in d.textures then Err(UnknownTexture)
    else Ok(MarkStale(d, rb))
  }

  /** `ClearRenderBuffer`: the default target for 0, with no map lookup; otherwise
      fatal for an unknown buffer, and the clear is handed to the device. */
  function ClearRenderBuffer(d: Driver, rb: nat): (r: Result<Driver, Fatal>)
    ensures r.Ok? <==> TargetOk(d, rb)
    ensures rb == 0 ==> r == Ok(d.(log := d.log + [Cleared(0)]))
    ensures rb != 0 && rb !in d.targets ==> r == Err(UnknownRenderBuffer)
    ensures r.Ok? ==> r.value == MarkStale(d, rb).(log := d.log + [Cleared(rb)])
  {
    if rb == 0 then Ok(d.(log := d.log + [Cleared(0)]))
    else if rb !in d.targets then Err(UnknownRenderBuffer)
    else if d.msaa && d.targets[rb] !in d.textures then Err(UnknownTexture)
    else Ok(MarkStale(d, rb).(log := d.log + [Cleared(rb)]))
  }

  /** `_BindTexture`: fatal for an unknown texture; a stale multisampled texture is
      resolved first and is then up to date. The source leaves the flag of a texture
      without multisampling alone; clearing it here is not observable, since only a
      multisampled texture is ever resolved (`MarkStale` and `NoMsaaNoResolve`). */
  function BindTexture(d: Driver, t: nat): (r: Result<Driver, Fatal>)
    ensures r.Ok? <==> t in d.textures
    ensures r.Err? ==> r.error == UnknownTexture
    ensures r.Ok? ==>
      r.value.textures.Keys == d.textures.Keys && !r.value.textures[t].needsResolve
      && r.value == d.(textures := r.value.textures, resolves := r.value.resolves)
      && (r.value.resolves == d.resolves + [t] <==> d.textures[t].msaa && d.textures[t].needsResolve)
      && (r.value.resolves == d.resolves || r.value.resolves == d.resolves + [t])
  {
    if t !in d.textures then Err(UnknownTexture)
    else
      var e := d.textures[t];
      if e.msaa && e.needsResolve then
        Ok(d.(textures := d.textures[t := e.(needsResolve := false)], resolves := d.resolves + [t]))
      else if e.msaa then Ok(d)
      else Ok(d.(textures := d.textures[t := e.(needsResolve := false)]))
  }

  /** A texture is resolved at most once until it is drawn into again: binding it a
      second time resolves nothing. */
  lemma ResolveOnce(d: Driver, t: nat)
    requires t in d.textures
    ensures var r1 := BindTexture(d, t).value;
      BindTexture(r1, t).Ok? && BindTexture(r1, t).value.resolves == r1.resolves
      && |BindTexture(r1, t).value.resolves| <= |d.resolves| + 1
  {
  }

  /** A texture that is not multisampled is never resolved. */
  lemma NoMsaaNoResolve(d: Driver, t: nat, b: Bitmap, rb: nat)
    requires !d.msaa && CreateTexture(d, t, b).Ok?
    ensures var d1 := CreateTexture(d, t, b).value;
      BindTexture(d1, t).Ok? && BindTexture(d1, t).value.resolves == d.resolves
  {
  }

  function BindGeometry(d: Driver, g: nat): (r: Result<Driver, Fatal>)
    ensures r.Ok? <==> g in d.geometries
    ensures r.Ok? ==> r.value == d
    ensures r.Err? ==> r.error == UnknownGeometry
  {
    if g in d.geometries then Ok(d) else Err(UnknownGeometry)
  }

  /** Binds a texture slot unless it is 0. */
  function BindSlot(d: Driver, t: nat): (r: Result<Driver, Fatal>)
    ensures r.Ok? <==> t == 0 || t in d.textures
    ensures t == 0 ==> r == Ok(d)
    ensures t != 0 ==> r == BindTexture(d, t)
  {
    if t == 0 then Ok(d) else BindTexture(d, t)
  }

  /** `DrawGeometry`: bind the render buffer, the non-zero texture slots and the
      geometry, in that order, then draw. */
  function Draw(d: Driver, c: Command): (r: Result<Driver, Fatal>)
  {
    match BindRenderBuffer(d, c.renderBuffer)
    case Err(e) => Err(e)
    case Ok(d1) =>
      match BindSlot(d1, c.texture1)
      case Err(e) => Err(e)
      case Ok(d2) =>
        match BindSlot(d2, c.texture2)
        case Err(e) => Err(e)
        case Ok(d3) =>
          match BindGeometry(d3, c.geometry)
          case Err(e) => Err(e)
          case Ok(d4) => Ok(d4.(log := d4.log + [Drew(c.geometry, c.count, c.offset)]))
  }

  // ---------------------------------------------------------------------------
  // The command list

  /** `UpdateCommandList`: an empty list leaves the stored one alone; any other replaces
      it. */
  function UpdateCommandList(d: Driver, list: seq<Command>): (r: Driver)
    ensures |list| == 0 ==> r == d
    ensures |list| > 0 ==> r == d.(commands := list)
  {
    if |list| == 0 then d else d.(commands := list)
  }

  /** Whether a command can run against the maps of `d`. */
  predicate CommandOk(d: Driver, c: Command)
  {
    match c.kind
    case DrawGeometry =>
      TargetOk(d, c.renderBuffer) && (c.texture1 == 0 || c.texture1 in d.textures)
      && (c.texture2 == 0 || c.texture2 in d.textures) && c.geometry in d.geometries
    case ClearRenderBuffer => TargetOk(d, c.renderBuffer)
    case OtherCommand(_) => true
  }

  /** What a command hands to the device: a draw, a clear, or nothing. */
  function Dispatched(cs: seq<Command>): (r: seq<Call>)
    ensures |r| <= |cs|
  {
    if |cs| == 0 then []
    else
      var c := cs[0];
      (match c.kind
       case DrawGeometry => [Drew(c.geometry, c.count, c.offset)]
       case ClearRenderBuffer => [Cleared(c.renderBuffer)]
       case OtherCommand(_) => []) + Dispatched(cs[1..])
  }

  /** One command of the dispatch loop. */
  function Step(d: Driver, c: Command): (r: Result<Driver, Fatal>)
    ensures r.Ok? <==> CommandOk(d, c)
    ensures r.Ok? ==>
      r.value.log == d.log + Dispatched([c])
      && r.value.textures.Keys == d.textures.Keys && r.value.targets == d.targets
      && r.value.geometries == d.geometries && r.value.msaa == d.msaa
      && r.value.commands == d.commands && r.value.counters == d.counters
  {
    match c.kind
    case DrawGeometry => Draw(d, c)
    case ClearRenderBuffer => ClearRenderBuffer(d, c.renderBuffer)
    case OtherCommand(_) => Ok(d)
  }

  /** The loop of `DrawCommandList` over the commands. */
  function Run(d: Driver, cs: seq<Command>): (r: Result<Driver, Fatal>)
    ensures r.Ok? <==> forall i :: 0 <= i < |cs| ==> CommandOk(d, cs[i])
    ensures r.Ok? ==>
      r.value.log == d.log + Dispatched(cs)
      && r.value.textures.Keys == d.textures.Keys && r.value.targets == d.targets
      && r.value.geometries == d.geometries && r.value.commands == d.commands
      && r.value.counters == d.counters
    decreases |cs|
  {
    if |cs| == 0 then Ok(d)
    else
      match Step(d, cs[0])
      case Err(e) => Err(e)
      case Ok(d1) =>
        assert forall c :: CommandOk(d1, c) == CommandOk(d, c);
        assert forall i :: 1 <= i < |cs| ==> cs[i] == cs[1..][i - 1];
        var r := Run(d1, cs[1..]);
        assert Dispatched(cs) == Dispatched([cs[0]]) + Dispatched(cs[1..]);
        r
  }

  /** `DrawCommandList`: nothing for an empty list; otherwise every command in order,
      the draws to `DrawGeometry` and the clears to `ClearRenderBuffer`, any other type
      skipped, and then the list is emptied. */
  function DrawCommandList(d: Driver): (r: Result<Driver, Fatal>)
    ensures |d.commands| == 0 ==> r == Ok(d)
    ensures r.Ok? <==> forall i :: 0 <= i < |d.commands| ==> CommandOk(d, d.commands[i])
    ensures r.Ok? ==> r.value.commands == [] && r.value.log == d.log + Dispatched(d.commands)
    ensures r.Ok? ==> r.value.targets == d.targets && r.value.geometries == d.geometries
  {
    if |d.commands| == 0 then Ok(d)
    else
      match Run(d, d.commands)
      case Err(e) => Err(e)
      case Ok(d1) => Ok(d1.(commands := []))
  }

  /** Drawing a list twice hands it to the device once: the second call finds the list
      empty. */
  lemma DrawOnce(d: Driver)
    requires DrawCommandList(d).Ok?
    ensures DrawCommandList(DrawCommandList(d).value) == DrawCommandList(d)
  {
  }

  /** Commands of a type the driver does not know are skipped without effect. */
  lemma OtherCommandsIgnored(d: Driver, code: nat, g: nat)
    ensures var c := Command(OtherCommand(code), g, 0, 0, 0, 0, 0);
      DrawCommandList(UpdateCommandList(d, [c])) == Ok(d.(commands := []))
  {
    var c := Command(OtherCommand(code), g, 0, 0, 0, 0, 0);
    var d1 := UpdateCommandList(d, [c]);
    assert Step(d1, c) == Ok(d1);
    assert [c][1..] == [];
    assert Run(d1, [c]) == Ok(d1);
  }
}
