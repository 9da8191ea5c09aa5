/** The Direct3D buffer wrappers (Sources/Kernel/Graphics/D3D/ConstantBuffer.cpp and
    VertexBuffer.cpp): the buffer description each one requests and the state it keeps.
    The device and its context are opaque: each call into them is replaced by its
    `HRESULT`, given as a parameter, and a created buffer is represented by the byte
    width it was requested with. */
module Buffers {
  import opened Wrappers

  /** `HRESULT` as a signed 32-bit value; failures are negative. */
  const S_OK: int := 0
  const E_FAIL: int := 0x8000_4005 - 0x1_0000_0000

  predicate Failed(hr: int) { hr < 0 }

  const U32: nat := 0x1_0000_0000

  // ---------------------------------------------------------------------------
  // Constant buffers

  /** The width `Initialize` computes as written: the size plus the distance to the
      next multiple of 16, cast to `UINT`. For a size already a multiple of 16 the
      distance is a full 16. */
  function ByteWidthAsWritten(size: nat): (r: nat)
    ensures r < U32
    ensures size + 16 < U32 ==> r % 16 == 0 && size < r <= size + 16
  {
    var w := size + (16 - size % 16);
    assert w == (size / 16 + 1) * 16;
    w % U32
  }

  /** An aligned size gains a whole extra 16 bytes: a 16-byte structure asks for 32. */
  lemma AlignedSizeDoubled()
    ensures ByteWidthAsWritten(16) == 32 && ByteWidth(16) == 16
    ensures forall size: nat :: 0 < size < U32 - 16 && size % 16 == 0 ==> ByteWidthAsWritten(size) == size + 16
  {
  }

  /** The width intended: the size rounded up to a multiple of 16, as a Direct3D
      constant buffer requires. */
  function ByteWidth(size: nat): (r: nat)
    ensures r % 16 == 0 && size <= r < size + 16
  {
    if size % 16 == 0 then size else size + (16 - size % 16)
  }

  /** The corrected width is the least multiple of 16 that holds the size, and it
      agrees with the width as written whenever the size is not already aligned. */
  lemma ByteWidthLeastMultiple(size: nat)
    ensures ByteWidth(size) % 16 == 0 && size <= ByteWidth(size) < size + 16
    ensures forall m: nat :: m % 16 == 0 && size <= m ==> ByteWidth(size) <= m
    ensures size % 16 != 0 && size + 16 < U32 ==> ByteWidth(size) == ByteWidthAsWritten(size)
  {
    forall m: nat | m % 16 == 0 && size <= m
      ensures ByteWidth(size) <= m
    {
      if size % 16 != 0 {
        assert m / 16 > size / 16 by {
          assert m >= size;
          assert m != size;
        }
        assert ByteWidth(size) == (size / 16 + 1) * 16;
        assert m == (m / 16) * 16;
      }
    }
  }

  /** What the wrapper keeps: the context it was given, the width of the buffer it
      created (if any), the CPU-side `data`, and the contents last copied to the GPU. */
  datatype ConstantBuffer<T> = ConstantBuffer(context: Option<nat>, created: Option<nat>, data: T, uploaded: Option<T>)

  /** `Initialize`: the context is stored first; then a buffer of the width as
      written is requested, and the call's result is returned. Taking the address of
      the `ComPtr` releases any buffer it held, so after a failed call the wrapper
      holds none. */
  function InitializeConstant<T>(cb: ConstantBuffer<T>, size: nat, context: nat, createHr: int): (r: (int, ConstantBuffer<T>))
    ensures r.0 == createHr && r.1.context == Some(context)
    ensures !Failed(createHr) ==> r.1.created == Some(ByteWidthAsWritten(size))
    ensures !Failed(createHr) && size + 16 < U32 ==>
      r.1.created.value % 16 == 0 && size < r.1.created.value <= size + 16
    ensures Failed(createHr) ==> r.1.created.None?
    ensures r.1.data == cb.data && r.1.uploaded == cb.uploaded
  {
    var withContext := cb.(context := Some(context));
    if Failed(createHr) then (createHr, withContext.(created := None))
    else (createHr, withContext.(created := Some(ByteWidthAsWritten(size))))
  }

  /** `ApplyChanges`: when mapping fails its result is returned and nothing is copied;
      otherwise the data is copied to the GPU and the mapping's result returned. */
  function ApplyChanges<T>(cb: ConstantBuffer<T>, mapHr: int): (r: (int, ConstantBuffer<T>))
    ensures r.0 == mapHr
    ensures Failed(mapHr) ==> r.1 == cb
    ensures !Failed(mapHr) ==> r.1 == cb.(uploaded := Some(cb.data))
  {
    if Failed(mapHr) then (mapHr, cb) else (mapHr, cb.(uploaded := Some(cb.data)))
  }

  /** A failed upload keeps the previous upload: after a successful upload of one value
      and a failed upload of the next, the GPU still holds the first. */
  lemma FailedUploadKeepsPrevious<T>(cb: ConstantBuffer<T>, okHr: int, badHr: int, next: T)
    requires !Failed(okHr) && Failed(badHr)
    ensures var c1 := ApplyChanges(cb, okHr).1;
      ApplyChanges(c1.(data := next), badHr).1.uploaded == Some(cb.data)
  {
  }

  // ---------------------------------------------------------------------------
  // Vertex buffers

  /** What the wrapper keeps: `storage_`, `stride_` (the vertex size) and the width of
      the buffer it created, if any. */
  datatype VertexBuffer<T> = VertexBuffer(storage: seq<T>, stride: nat, created: Option<nat>)

  function NewVertexBuffer<T>(vertexSize: nat): (vb: VertexBuffer<T>)
    ensures vb.storage == [] && vb.stride == vertexSize && vb.created.None?
  {
    VertexBuffer([], vertexSize, None)
  }

  /** `VertexCount`: the number of stored vertices as a `UINT`. */
  function VertexCount<T>(vb: VertexBuffer<T>): (r: nat)
    ensures r < U32
    ensures |vb.storage| < U32 ==> r == |vb.storage|
  {
    |vb.storage| % U32
  }

  /** `Initialize`: the data is stored whatever happens; empty data fails with `E_FAIL`
      before any buffer is requested (an earlier buffer stays); otherwise a buffer of
      stride times count bytes is requested and the call's result returned, and a
      failed request leaves no buffer, the `ComPtr` having released the old one. */
  function InitializeVertices<T>(vb: VertexBuffer<T>, data: seq<T>, createHr: int): (r: (int, VertexBuffer<T>))
    ensures r.1.storage == data && r.1.stride == vb.stride
    ensures |data| == 0 ==> r == (E_FAIL, vb.(storage := data))
    ensures |data| > 0 ==> r.0 == createHr
    ensures |data| > 0 && !Failed(createHr) ==> r.1.created == Some((vb.stride * |data|) % U32)
    ensures |data| > 0 && Failed(createHr) ==> r.1.created.None?
  {
    var stored := vb.(storage := data);
    if |data| == 0 then (E_FAIL, stored)
    else if Failed(createHr) then (createHr, stored.(created := None))
    else (createHr, stored.(created := Some((vb.stride * |data|) % U32)))
  }

  /** After `Initialize` the count is the number of vertices given, even when it
      failed; a call on data succeeds exactly when a buffer results, and that buffer
      holds exactly count times stride bytes. */
  lemma InitializeThenCount<T>(vb: VertexBuffer<T>, data: seq<T>, createHr: int)
    requires |data| < U32 && vb.stride * |data| < U32
    ensures var (hr, v) := InitializeVertices(vb, data, createHr);
      VertexCount(v) == |data|
      && (|data| > 0 ==> (v.created.Some? <==> !Failed(hr)))
      && (|data| > 0 && v.created.Some? ==> v.created == Some(VertexCount(v) * v.stride))
      && (|data| == 0 ==> Failed(hr))
  {
  }
}
