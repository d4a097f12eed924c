/** The GPU resources of the glow (OpenGL) adapter: two append-only buffers with a
    byte watermark, the currently selected texture, and the indexed draw. The
    watermark and capacity are `i32` fields; `as i32` and `i32` arithmetic wrap. */
module GlowRes {
  import opened Base
  import opened Geometry
  import opened Draw
  import opened DrawIter

  /** Quads the buffers are sized for. */
  const N_QUADS: nat := 2048

  /** `glow::UNSIGNED_SHORT` and `glow::UNSIGNED_INT`. */
  const GL_UNSIGNED_SHORT: nat := 0x1403
  const GL_UNSIGNED_INT: nat := 0x1405

  /** `glow::ARRAY_BUFFER` (vertices) or `glow::ELEMENT_ARRAY_BUFFER` (indices). */
  datatype BufferKind = ArrayBuffer | ElementArrayBuffer

  /** The OpenGL calls the adapter issues. */
  datatype Op =
    | BufferSubData(kind: BufferKind, offset: int, bytes: nat)
    | SetUniforms(o: Ortho)
    | SetScissor(box: ScissorBox)
    | Bind(texture: Option<nat>)
    | DrawElementsBaseVertex(count: int, indexType: nat, byteOffset: int, baseVertex: int)
    | Unbind
    | Hooked(hook: Hook)

  /** `Buffer<T>`: bytes written since the last reset, and bytes allocated. */
  datatype Buffer = Buffer(lenBytes: int, capacityBytes: int)

  /** The watermark lies within the allocation, which fits in an `i32`. */
  predicate Inv(b: Buffer) {
    0 <= b.lenBytes <= b.capacityBytes < I32_MAX
  }

  /** `Buffer::new`: `size_of::<T>() * len` bytes (a wrapping `usize` product),
      which must stay below `i32::MAX` or the assertion panics (`None`). */
  function NewBuffer(elemSize: nat, len: nat): (r: Option<Buffer>)
    ensures elemSize * len <= USIZE_MAX ==> (r.Some? <==> elemSize * len < I32_MAX)
    ensures r.Some? ==> r.value.lenBytes == 0 && Inv(r.value)
    ensures r.Some? && elemSize * len <= USIZE_MAX ==> r.value.capacityBytes == elemSize * len
  {
    var cap := (elemSize * len) % (USIZE_MAX + 1);
    if cap < I32_MAX then Some(Buffer(0, cap)) else None
  }

  /** A buffer after an append, and the write it issued. */
  datatype Appended = Appended(buf: Buffer, op: Op)

  /** `Buffer::append` as written: the slice's byte length is cast `as i32` and
      added to the watermark with wrapping `i32` addition before the capacity
      check. `None` is the failed assertion. */
  function AppendAsWritten(kind: BufferKind, b: Buffer, elemSize: nat, n: nat): (r: Option<Appended>)
    ensures r.Some? ==> r.value.op == BufferSubData(kind, b.lenBytes, elemSize * n) && r.value.buf.capacityBytes == b.capacityBytes
    ensures r.Some? ==> I32_MIN <= r.value.buf.lenBytes <= b.capacityBytes
    ensures r.Some? ==> (r.value.buf.lenBytes - (b.lenBytes + elemSize * n)) % U32_MODULUS == 0
  {
    var bytes := elemSize * n;
    var newLen := WrapI32(b.lenBytes + WrapI32(bytes));
    if newLen <= b.capacityBytes then Some(Appended(Buffer(newLen, b.capacityBytes), BufferSubData(kind, b.lenBytes, bytes)))
    else None
  }

  /** `Buffer::append` as evidently intended: the watermark grows by the slice's
      byte length, and the assertion fails when that passes the capacity. */
  function Append(kind: BufferKind, b: Buffer, elemSize: nat, n: nat): (r: Option<Appended>)
    ensures r.Some? <==> b.lenBytes + elemSize * n <= b.capacityBytes
    ensures r.Some? ==>
      (&& r.value.buf == Buffer(b.lenBytes + elemSize * n, b.capacityBytes)
       && r.value.op == BufferSubData(kind, b.lenBytes, elemSize * n))
    ensures Inv(b) && r.Some? ==> Inv(r.value.buf)
  {
    var newLen := b.lenBytes + elemSize * n;
    if newLen <= b.capacityBytes then Some(Appended(Buffer(newLen, b.capacityBytes), BufferSubData(kind, b.lenBytes, elemSize * n)))
    else None
  }

  /** While the new watermark fits in an `i32`, the code as written behaves as
      intended. */
  lemma AppendAsWrittenAgreesInRange(kind: BufferKind, b: Buffer, elemSize: nat, n: nat)
    requires Inv(b)
    requires b.lenBytes + elemSize * n <= I32_MAX
    ensures AppendAsWritten(kind, b, elemSize, n) == Append(kind, b, elemSize, n)
  {
  }

  /** The wrap only ever lets an append through: on a buffer within its
      capacity, the assertion as written never rejects an append that fits. */
  lemma AppendAsWrittenFailsOnlyOnOverflow(kind: BufferKind, b: Buffer, elemSize: nat, n: nat)
    requires Inv(b)
    ensures AppendAsWritten(kind, b, elemSize, n).None? ==> b.lenBytes + elemSize * n > b.capacityBytes
  {
    if b.lenBytes + elemSize * n <= b.capacityBytes {
      AppendAsWrittenAgreesInRange(kind, b, elemSize, n);
    }
  }

  /** 2^30 16-bit indices (2 GiB) appended to the empty index buffer: the cast
      wraps the byte length to `i32::MIN`, the assertion passes, and the watermark
      becomes negative. The intended append fails the assertion. */
  lemma AppendAsWrittenWrapsNegative()
    ensures var b := Buffer(0, 49152);
      && Inv(b)
      && AppendAsWritten(ElementArrayBuffer, b, 2, 0x4000_0000).Some?
      && AppendAsWritten(ElementArrayBuffer, b, 2, 0x4000_0000).value.buf.lenBytes == I32_MIN
      && !Inv(AppendAsWritten(ElementArrayBuffer, b, 2, 0x4000_0000).value.buf)
      && Append(ElementArrayBuffer, b, 2, 0x4000_0000).None?
  {
    assert WrapI32(0x8000_0000) == I32_MIN;
  }

  /** Appending `a` then `c` elements writes them back to back: the second write
      starts where the first ended, and the watermark is the sum. */
  lemma AppendsAreContiguous(kind: BufferKind, b: Buffer, elemSize: nat, a: nat, c: nat)
    requires Append(kind, b, elemSize, a).Some?
    requires Append(kind, Append(kind, b, elemSize, a).value.buf, elemSize, c).Some?
    ensures var first := Append(kind, b, elemSize, a).value;
      var second := Append(kind, first.buf, elemSize, c).value;
      && second.op.offset == b.lenBytes + elemSize * a
      && second.buf.lenBytes == b.lenBytes + elemSize * (a + c)
  {
    var first := Append(kind, b, elemSize, a).value;
    assert first.buf.lenBytes == b.lenBytes + elemSize * a;
    assert elemSize * (a + c) == elemSize * a + elemSize * c;
  }

  /** `Buffer::reset_offset`. */
  function ResetOffset(b: Buffer): (r: Buffer)
    ensures r.lenBytes == 0 && r.capacityBytes == b.capacityBytes
    ensures Inv(b) ==> Inv(r)
  {
    b.(lenBytes := 0)
  }

  /** After a reset the whole capacity is available again: an append succeeds
      exactly when its bytes fit in the capacity, and writes at offset 0. */
  lemma ResetFreesCapacity(kind: BufferKind, b: Buffer, elemSize: nat, n: nat)
    ensures var r := Append(kind, ResetOffset(b), elemSize, n);
      && (r.Some? <==> elemSize * n <= b.capacityBytes)
      && (r.Some? ==> r.value.op.offset == 0)
  {
  }

  /** `Resources`: the vertex and index buffers and the texture selected for the
      next `bind`. */
  datatype Resources = Resources(vbuf: Buffer, ibuf: Buffer, tex: Option<nat>)

  /** Both buffers keep the watermark invariant. */
  predicate WithinCapacity(r: Resources) {
    Inv(r.vbuf) && Inv(r.ibuf)
  }

  /** `Resources::new`. The element counts passed to `Buffer::new` are already
      multiplied by the element size, which `Buffer::new` multiplies in again, so
      the capacities are `size² · 4 · N_QUADS` and `size² · 6 · N_QUADS` bytes. */
  function NewResources(idx: IndexWidth): (r: Option<Resources>)
    ensures r.Some? && WithinCapacity(r.value) && r.value.tex.None?
    ensures r.value.vbuf == Buffer(0, DRAW_VERT_SIZE * DRAW_VERT_SIZE * 4 * N_QUADS)
    ensures r.value.ibuf == Buffer(0, IndexSize(idx) * IndexSize(idx) * 6 * N_QUADS)
  {
    var v := NewBuffer(DRAW_VERT_SIZE, 4 * N_QUADS * DRAW_VERT_SIZE);
    var i := NewBuffer(IndexSize(idx), 6 * N_QUADS * IndexSize(idx));
    if v.Some? && i.Some? then Some(Resources(v.value, i.value, None)) else None
  }

  /** The capacities in bytes: 3,276,800 for vertices; 49,152 for 16-bit and
      196,608 for 32-bit indices. */
  lemma NewResourcesCapacities()
    ensures NewResources(Idx16).value.vbuf.capacityBytes == 3276800
    ensures NewResources(Idx16).value.ibuf.capacityBytes == 49152
    ensures NewResources(Idx32).value.ibuf.capacityBytes == 196608
  {
  }

  /** `reset_buf_offsets`: both watermarks to 0, nothing else. */
  function ResetBufOffsets(r: Resources): (r': Resources)
    ensures r'.vbuf.lenBytes == 0 && r'.ibuf.lenBytes == 0
    ensures r'.vbuf.capacityBytes == r.vbuf.capacityBytes && r'.ibuf.capacityBytes == r.ibuf.capacityBytes
    ensures r'.tex == r.tex
    ensures WithinCapacity(r) ==> WithinCapacity(r')
  {
    Resources(ResetOffset(r.vbuf), ResetOffset(r.ibuf), r.tex)
  }

  /** `set_texture`. */
  function SetTexture(r: Resources, t: nat): (r': Resources)
    ensures r'.tex == Some(t) && r'.vbuf == r.vbuf && r'.ibuf == r.ibuf
  {
    r.(tex := Some(t))
  }

  /** `Resources::draw(n_elems, idx_offset, vtx_offset)`: the byte offset is the
      index offset times the index size, as a wrapping `i32` product, and the index
      type follows the index width. */
  function DrawOp(idx: IndexWidth, nElems: int, idxOffset: int, vtxOffset: int): (o: Op)
    ensures o.DrawElementsBaseVertex?
    ensures o.indexType == GL_UNSIGNED_SHORT <==> idx == Idx16
    ensures o.indexType == GL_UNSIGNED_INT <==> idx == Idx32
  {
    DrawElementsBaseVertex(
      nElems,
      if idx == Idx16 then GL_UNSIGNED_SHORT else GL_UNSIGNED_INT,
      WrapI32(idxOffset * IndexSize(idx)),
      vtxOffset)
  }

  /** The draw reads its first index at byte `idx_offset · size_of::<DrawIdx>()`
      as long as that fits in an `i32`, with the count and base vertex passed
      through. */
  lemma DrawOpOffset(idx: IndexWidth, nElems: int, idxOffset: int, vtxOffset: int)
    requires 0 <= idxOffset && idxOffset * IndexSize(idx) <= I32_MAX
    ensures var o := DrawOp(idx, nElems, idxOffset, vtxOffset);
      && o.byteOffset == idxOffset * IndexSize(idx)
      && o.count == nElems && o.baseVertex == vtxOffset
  {
  }
}
