/** The FNA3D adapter (`src/renderer/fna3d.rs`): grow-on-demand GPU buffers that are
    re-uploaded whole, and a `draw` that uploads and sets the projection on the
    first draw call of a list, sets the scissor, resolves the texture and issues an
    indexed draw. GPU calls become operations of a trace. */
module Fna3d {
  import opened Base
  import opened Geometry
  import opened Draw
  import opened DrawIter
  import opened Textures
  import opened Driver

  /** Quads the buffers are first sized for. */
  const N_QUADS: nat := 8192
  /** Bytes per vertex, as the adapter counts them. */
  const VERT_SIZE: nat := 20
  /** Bytes per index, as the adapter counts them (16-bit indices). */
  const INDEX_SIZE: nat := 2

  datatype BufferKind = VertexBuffer | IndexBuffer

  /** `GpuVertexBuffer` / `GpuIndexBuffer`: the byte capacity of the current GPU
      buffer (its handle is not modelled). */
  datatype GpuBuffer = GpuBuffer(capacityBytes: nat)

  datatype Batch = Batch(vbuf: GpuBuffer, ibuf: GpuBuffer)

  datatype Op =
    | SetBlendNonPremultiplied
      /** Dispose the buffer and create one of `bytes` bytes (`len as u32`). */
    | Reallocate(kind: BufferKind, bytes: nat)
      /** Upload `elems` elements at offset 0. */
    | SetData(kind: BufferKind, elems: nat)
    | SetProjection(o: Ortho)
    | SetScissor(box: ScissorBox)
      /** Apply the effect, bind `texture` to sampler 0, bind the vertex buffer. */
    | PrepareDraw(texture: nat, vtxOffset: nat)
    | DrawIndexed(baseVertex: nat, minVertexIndex: nat, numVertices: nat, startIndex: nat, primitiveCount: nat)
    | Hooked(hook: Hook)

  datatype Error = BadTexture(id: nat)

  /** What a draw needs besides the batch: the font texture, the registry of user
      textures (texture id to GPU texture), and the width of `imgui::DrawIdx`. */
  datatype Ctx = Ctx(font: nat, registry: map<nat, nat>, idx: IndexWidth)

  function Max(a: nat, b: nat): nat {
    if a >= b then a else b
  }

  /** `new`: `unit * n` bytes for `n` elements. */
  function NewBuffer(unit: nat, n: nat): GpuBuffer {
    GpuBuffer(unit * n)
  }

  /** `Batch::new`: four vertices and six indices per quad. */
  function NewBatch(): (b: Batch)
    ensures b.vbuf.capacityBytes == 655360 && b.ibuf.capacityBytes == 98304
  {
    Batch(NewBuffer(VERT_SIZE, 4 * N_QUADS), NewBuffer(INDEX_SIZE, 6 * N_QUADS))
  }

  /** The byte length an upload asks for: `unit * (data.len() + size_of::<T>())`. */
  function RequiredBytes(unit: nat, elemSize: nat, len: nat): nat {
    unit * (len + elemSize)
  }

  datatype Uploaded = Uploaded(buf: GpuBuffer, ops: seq<Op>)

  /** The data uploads among the operations. */
  function UploadsOf(o: Op): seq<Op> {
    if o.SetData? then [o] else []
  }

  /** The reallocations among the operations. */
  function ReallocationsOf(o: Op): seq<Op> {
    if o.Reallocate? then [o] else []
  }

  /** The reallocation an upload of `len` elements needs: none while the
      required length fits the capacity. */
  function ReallocKey(kind: BufferKind, b: GpuBuffer, unit: nat, elemSize: nat, len: nat): seq<Op> {
    var need := RequiredBytes(unit, elemSize, len);
    if need > b.capacityBytes then [Reallocate(kind, AsU32(need))] else []
  }

  /** `upload_vertices` / `upload_indices`: reallocate to exactly the required
      length if it exceeds the capacity, then upload the whole slice. */
  function Upload(kind: BufferKind, b: GpuBuffer, unit: nat, elemSize: nat, len: nat): (u: Uploaded)
    ensures u.buf.capacityBytes == Max(b.capacityBytes, RequiredBytes(unit, elemSize, len))
    ensures 1 <= |u.ops| <= 2 && u.ops[|u.ops| - 1] == SetData(kind, len)
    ensures (|u.ops| == 2 && u.ops[0] == Reallocate(kind, AsU32(u.buf.capacityBytes)))
        <==> RequiredBytes(unit, elemSize, len) > b.capacityBytes
    ensures |u.ops| == 1 <==> RequiredBytes(unit, elemSize, len) <= b.capacityBytes
  {
    var need := RequiredBytes(unit, elemSize, len);
    if need > b.capacityBytes then Uploaded(GpuBuffer(need), [Reallocate(kind, AsU32(need)), SetData(kind, len)])
    else Uploaded(b, [SetData(kind, len)])
  }

  /** The capacity after uploads of the lengths `lens`, in order. */
  function CapacityAfter(cap: nat, unit: nat, elemSize: nat, lens: seq<nat>): nat
    decreases |lens|
  {
    if |lens| == 0 then cap
    else CapacityAfter(Upload(VertexBuffer, GpuBuffer(cap), unit, elemSize, lens[0]).buf.capacityBytes, unit, elemSize, lens[1..])
  }

  /** The largest required length among `lens`, or `cap` if larger. */
  function MaxRequired(cap: nat, unit: nat, elemSize: nat, lens: seq<nat>): nat
    decreases |lens|
  {
    if |lens| == 0 then cap
    else Max(RequiredBytes(unit, elemSize, lens[|lens| - 1]), MaxRequired(cap, unit, elemSize, lens[..|lens| - 1]))
  }

  lemma MaxRequiredCons(cap: nat, unit: nat, elemSize: nat, x: nat, lens: seq<nat>)
    ensures MaxRequired(cap, unit, elemSize, [x] + lens) == MaxRequired(Max(cap, RequiredBytes(unit, elemSize, x)), unit, elemSize, lens)
    decreases |lens|
  {
    if |lens| > 0 {
      var l := [x] + lens;
      assert l[..|l| - 1] == [x] + lens[..|lens| - 1];
      MaxRequiredCons(cap, unit, elemSize, x, lens[..|lens| - 1]);
    }
  }

  /** Over any sequence of uploads the capacity is the running maximum of the
      initial capacity and the required lengths: it never shrinks, and it covers
      every upload made so far. */
  lemma {:induction false} CapacityIsRunningMax(cap: nat, unit: nat, elemSize: nat, lens: seq<nat>)
    ensures CapacityAfter(cap, unit, elemSize, lens) == MaxRequired(cap, unit, elemSize, lens)
    ensures CapacityAfter(cap, unit, elemSize, lens) >= cap
    ensures forall i :: 0 <= i < |lens| ==> CapacityAfter(cap, unit, elemSize, lens) >= RequiredBytes(unit, elemSize, lens[i])
    decreases |lens|
  {
    if |lens| > 0 {
      var c1 := Max(cap, RequiredBytes(unit, elemSize, lens[0]));
      CapacityIsRunningMax(c1, unit, elemSize, lens[1..]);
      MaxRequiredCons(cap, unit, elemSize, lens[0], lens[1..]);
      assert [lens[0]] + lens[1..] == lens;
      forall i | 0 <= i < |lens|
        ensures CapacityAfter(cap, unit, elemSize, lens) >= RequiredBytes(unit, elemSize, lens[i])
      {
        if i > 0 {
          assert lens[i] == lens[1..][i - 1];
        }
      }
    }
  }

  /** Uploading the same length again never reallocates. */
  lemma SecondUploadKeepsBuffer(kind: BufferKind, b: GpuBuffer, unit: nat, elemSize: nat, len: nat)
    ensures var u := Upload(kind, b, unit, elemSize, len);
      Upload(kind, u.buf, unit, elemSize, len) == Uploaded(u.buf, [SetData(kind, len)])
  {
  }

  /** The bytes actually written (`len * size_of::<T>()`) fit the buffer after the
      upload: for vertices always, for indices when they are 16-bit, the width the
      adapter's draw call declares. */
  lemma UploadedDataFits(b: Batch, nv: nat, ni: nat)
    ensures Upload(VertexBuffer, b.vbuf, VERT_SIZE, DRAW_VERT_SIZE, nv).buf.capacityBytes >= DRAW_VERT_SIZE * nv
    ensures Upload(IndexBuffer, b.ibuf, INDEX_SIZE, IndexSize(Idx16), ni).buf.capacityBytes >= IndexSize(Idx16) * ni
  {
  }

  datatype BatchUpload = BatchUpload(batch: Batch, ops: seq<Op>)

  /** The data a draw call uploads: its list's whole vertex slice, then its whole
      index slice, for the first draw call of a list only. */
  function UploadKey(p: DrawParams): seq<Op> {
    if p.idxOffset == 0 then [SetData(VertexBuffer, |p.vtxBuffer|), SetData(IndexBuffer, |p.idxBuffer|)] else []
  }

  /** `Batch::set_buffers`: vertices, then indices. */
  function SetBuffers(ctx: Ctx, b: Batch, p: DrawParams): (r: BatchUpload)
    ensures r.batch.vbuf.capacityBytes == Max(b.vbuf.capacityBytes, RequiredBytes(VERT_SIZE, DRAW_VERT_SIZE, |p.vtxBuffer|))
    ensures r.batch.ibuf.capacityBytes == Max(b.ibuf.capacityBytes, RequiredBytes(INDEX_SIZE, IndexSize(ctx.idx), |p.idxBuffer|))
  {
    var v := Upload(VertexBuffer, b.vbuf, VERT_SIZE, DRAW_VERT_SIZE, |p.vtxBuffer|);
    var i := Upload(IndexBuffer, b.ibuf, INDEX_SIZE, IndexSize(ctx.idx), |p.idxBuffer|);
    BatchUpload(Batch(v.buf, i.buf), v.ops + i.ops)
  }

  /** An upload writes the whole slice once, after reallocating exactly when the
      required length exceeds the capacity. */
  lemma UploadSelections(kind: BufferKind, b: GpuBuffer, unit: nat, elemSize: nat, len: nat)
    ensures Collect(UploadsOf, Upload(kind, b, unit, elemSize, len).ops) == [SetData(kind, len)]
    ensures Collect(ReallocationsOf, Upload(kind, b, unit, elemSize, len).ops) == ReallocKey(kind, b, unit, elemSize, len)
  {
    var need := RequiredBytes(unit, elemSize, len);
    CollectOne(UploadsOf, SetData(kind, len));
    CollectOne(ReallocationsOf, SetData(kind, len));
    CollectPair(UploadsOf, Reallocate(kind, AsU32(need)), SetData(kind, len));
    CollectPair(ReallocationsOf, Reallocate(kind, AsU32(need)), SetData(kind, len));
  }

  /** `set_buffers` uploads the vertex slice, then the index slice, each buffer
      reallocated first exactly when it is too small. */
  lemma SetBuffersSelections(ctx: Ctx, b: Batch, p: DrawParams)
    ensures var r := SetBuffers(ctx, b, p);
      && Collect(UploadsOf, r.ops) == [SetData(VertexBuffer, |p.vtxBuffer|), SetData(IndexBuffer, |p.idxBuffer|)]
      && Collect(ReallocationsOf, r.ops) ==
        ReallocKey(VertexBuffer, b.vbuf, VERT_SIZE, DRAW_VERT_SIZE, |p.vtxBuffer|)
        + ReallocKey(IndexBuffer, b.ibuf, INDEX_SIZE, IndexSize(ctx.idx), |p.idxBuffer|)
  {
    var v := Upload(VertexBuffer, b.vbuf, VERT_SIZE, DRAW_VERT_SIZE, |p.vtxBuffer|);
    var i := Upload(IndexBuffer, b.ibuf, INDEX_SIZE, IndexSize(ctx.idx), |p.idxBuffer|);
    UploadSelections(VertexBuffer, b.vbuf, VERT_SIZE, DRAW_VERT_SIZE, |p.vtxBuffer|);
    UploadSelections(IndexBuffer, b.ibuf, INDEX_SIZE, IndexSize(ctx.idx), |p.idxBuffer|);
    CollectConcat(UploadsOf, v.ops, i.ops);
    CollectConcat(ReallocationsOf, v.ops, i.ops);
  }

  /** The projection: display top passed as the bottom argument and display bottom
      as the top one, so that y grows downward. */
  function Projection(display: Rect): (o: Ortho)
    ensures o == ProjectionOf(display, UpIsTop)
  {
    Ortho(display.left, display.right, display.top, display.bottom, 0.0, 1.0)
  }

  /** The scissor call as written: width and height through `Rect::width` and
      `Rect::height`, which measure between the rectangle's edges. */
  function ScissorAsWritten(r: Rect): ScissorBox {
    ScissorBox(TruncToI32(r.left), TruncToI32(r.top), TruncToI32(Width(r)), TruncToI32(Height(r)))
  }

  /** The scissor call as evidently intended: the scissor rectangle already holds
      the extents in `right` and `bottom`. `ScissorIsTransformedClip` states what
      it yields. */
  function Scissor(r: Rect): ScissorBox {
    ScissorBox(TruncToI32(r.left), TruncToI32(r.top), TruncToI32(r.right), TruncToI32(r.bottom))
  }

  /** For a frame without display offset, the corrected scissor box is the
      transformed clip rectangle: its lower-left corner in a y-up framebuffer, and
      its width and height. */
  lemma ScissorIsTransformedClip(f: Frame, c: ClipRect)
    requires f.clipOff == Vec2(0.0, 0.0)
    ensures var t := TransformClip(c, f.clipOff, f.clipScale);
      Scissor(ScissorOf(f, c)) == ScissorBox(TruncToI32(t.x), TruncToI32(f.fbHeight - t.w), TruncToI32(t.z - t.x), TruncToI32(t.w - t.y))
  {
    ScissorMatchesTransformedClip(f, c);
  }

  /** A 100x50 clip rectangle at (100, 0) on an 800x600 framebuffer: as written the
      scissor gets width 0 and height 500; intended are 100 and 50. */
  lemma ScissorAsWrittenLosesExtents()
    ensures var f := FrameOf(DrawData(Vec2(0.0, 0.0), Vec2(800.0, 600.0), Vec2(1.0, 1.0), []));
      var r := ScissorOf(f, ClipRect(100.0, 0.0, 200.0, 50.0));
      && ScissorAsWritten(r) == ScissorBox(100, 550, 0, 500)
      && Scissor(r) == ScissorBox(100, 550, 100, 50)
  {
    var f := FrameOf(DrawData(Vec2(0.0, 0.0), Vec2(800.0, 600.0), Vec2(1.0, 1.0), []));
    var r := ScissorOf(f, ClipRect(100.0, 0.0, 200.0, 50.0));
    assert r == Rect(100.0, 550.0, 100.0, 50.0);
    assert Width(r) == 0.0 && Height(r) == 500.0;
  }

  /** `params.n_elems as u32 * 2 / 3`, with the u32 product wrapping. */
  function NVertices(n: nat): nat {
    (AsU32(n) * 2 % U32_MODULUS) / 3
  }

  /** `(params.n_elems / 3) as u32`. */
  function NTriangles(n: nat): nat {
    AsU32(n / 3)
  }

  /** For `q` quads (six indices each) the draw covers four vertices and two
      triangles per quad, as long as the index count fits in 31 bits. */
  lemma QuadCounts(q: nat)
    requires 6 * q < 0x8000_0000
    ensures NVertices(6 * q) == 4 * q
    ensures NTriangles(6 * q) == 2 * q
  {
  }

  /** Below 2^31 the vertex count is the exact `2n / 3`; above, the u32 product
      wraps. */
  lemma VertexCountBounds(n: nat)
    ensures n < 0x8000_0000 ==> NVertices(n) == 2 * n / 3
    ensures NVertices(0x8000_0000) == 0
  {
  }

  /** The indexed draw issued for a draw call: base vertex `vtx_offset`, start
      index `idx_offset`, and the vertex and triangle counts. */
  function DrawKey(p: DrawParams): seq<Op> {
    [DrawIndexed(AsU32(p.vtxOffset), 0, NVertices(p.nElems), AsU32(p.idxOffset), NTriangles(p.nElems))]
  }

  /** The projection set for a draw call: only for the first one of a list. */
  function ProjectionKey(p: DrawParams): seq<Ortho> {
    if p.idxOffset == 0 then [Projection(p.display)] else []
  }

  /** The operations `draw` issues after resolving texture `t`. */
  function DrawOps(t: nat, p: DrawParams): seq<Op> {
    [PrepareDraw(t, AsU32(p.vtxOffset))] + DrawKey(p)
  }

  /** The upload and projection of the first draw call of a list. */
  function Setup(ctx: Ctx, b: Batch, p: DrawParams): BatchUpload {
    if p.idxOffset == 0 then
      var u := SetBuffers(ctx, b, p);
      BatchUpload(u.batch, u.ops + [SetProjection(Projection(p.display))])
    else BatchUpload(b, [])
  }

  /** Only draw calls that upload set a projection, and exactly one. */
  function ProjectionsOf(o: Op): seq<Ortho> {
    if o.SetProjection? then [o.o] else []
  }

  function DrawsOf(o: Op): seq<Op> {
    if o.DrawIndexed? then [o] else []
  }

  function HooksIn(o: Op): seq<Hook> {
    if o.Hooked? then [o.hook] else []
  }

  /** The scissor boxes set. */
  function ScissorsOf(o: Op): seq<ScissorBox> {
    if o.SetScissor? then [o.box] else []
  }

  /** Every draw call sets its scissor, as written, whether or not it then fails. */
  function ScissorKey(p: DrawParams): seq<ScissorBox> {
    [ScissorAsWritten(p.scissor)]
  }

  /** The textures handed to `prepare_draw`. */
  function TexturesOf(o: Op): seq<nat> {
    if o.PrepareDraw? then [o.texture] else []
  }

  /** A draw call prepares the texture its id resolves to, and nothing when it
      does not resolve. */
  function TextureKey(ctx: Ctx, p: DrawParams): seq<nat> {
    match Resolve(ctx.font, ctx.registry, p.texId)
    case None => []
    case Some(t) => [t]
  }

  /** `ImGuiFna3d::draw`. */
  function DrawCall(ctx: Ctx, b: Batch, p: DrawParams): (r: Outcome<Batch, Op, Error>)
    ensures r.error.Some? <==> Resolve(ctx.font, ctx.registry, p.texId).None?
    ensures |r.trace| > 0
    ensures r.error.Some? ==> r.error.value == BadTexture(p.texId) && r.trace[|r.trace| - 1] == SetScissor(ScissorAsWritten(p.scissor))
    ensures r.error.None? ==>
      (&& |r.trace| >= 3
       && r.trace[|r.trace| - 3] == SetScissor(ScissorAsWritten(p.scissor))
       && r.trace[|r.trace| - 2] == PrepareDraw(Resolve(ctx.font, ctx.registry, p.texId).value, AsU32(p.vtxOffset))
       && r.trace[|r.trace| - 1] == DrawKey(p)[0])
    ensures p.idxOffset != 0 ==> r.state == b
    ensures b.vbuf.capacityBytes <= r.state.vbuf.capacityBytes && b.ibuf.capacityBytes <= r.state.ibuf.capacityBytes
  {
    var u := Setup(ctx, b, p);
    var ops := u.ops + [SetScissor(ScissorAsWritten(p.scissor))];
    match Resolve(ctx.font, ctx.registry, p.texId)
    case None => Outcome(u.batch, ops, Some(BadTexture(p.texId)))
    case Some(t) => Outcome(u.batch, ops + DrawOps(t, p), None)
  }

  /** Buffer uploads are neither projections, draws nor side effects. */
  predicate Plain(o: Op) {
    o.Reallocate? || o.SetData?
  }

  lemma SetBuffersPlain(ctx: Ctx, b: Batch, p: DrawParams)
    ensures forall i :: 0 <= i < |SetBuffers(ctx, b, p).ops| ==> Plain(SetBuffers(ctx, b, p).ops[i])
  {
  }

  /** The setup of a draw call sets the projection exactly when it uploads. */
  lemma SetupSelectsProjection(ctx: Ctx, b: Batch, p: DrawParams)
    ensures Collect(ProjectionsOf, Setup(ctx, b, p).ops) == ProjectionKey(p)
  {
    if p.idxOffset == 0 {
      var u := SetBuffers(ctx, b, p).ops;
      var pr := [SetProjection(Projection(p.display))];
      SetBuffersPlain(ctx, b, p);
      CollectNone(ProjectionsOf, u);
      CollectOne(ProjectionsOf, pr[0]);
      CollectConcat(ProjectionsOf, u, pr);
    }
  }

  /** The setup of a draw call issues no draw and no side effect. */
  lemma SetupSelectsNoDraws(ctx: Ctx, b: Batch, p: DrawParams)
    ensures Collect(DrawsOf, Setup(ctx, b, p).ops) == []
    ensures Collect(HooksIn, Setup(ctx, b, p).ops) == []
  {
    if p.idxOffset == 0 {
      var u := SetBuffers(ctx, b, p).ops;
      var pr := [SetProjection(Projection(p.display))];
      SetBuffersPlain(ctx, b, p);
      CollectNone(DrawsOf, u);
      CollectNone(HooksIn, u);
      CollectOne(DrawsOf, pr[0]);
      CollectOne(HooksIn, pr[0]);
      CollectConcat(DrawsOf, u, pr);
      CollectConcat(HooksIn, u, pr);
    }
  }

  /** The setup of a draw call uploads the list's data exactly when it is the
      first of its list, and sets no scissor and prepares no texture. */
  lemma SetupSelectsUploads(ctx: Ctx, b: Batch, p: DrawParams)
    ensures Collect(UploadsOf, Setup(ctx, b, p).ops) == UploadKey(p)
    ensures Collect(ScissorsOf, Setup(ctx, b, p).ops) == []
    ensures Collect(TexturesOf, Setup(ctx, b, p).ops) == []
  {
    if p.idxOffset == 0 {
      var u := SetBuffers(ctx, b, p).ops;
      var pr := [SetProjection(Projection(p.display))];
      SetBuffersPlain(ctx, b, p);
      SetBuffersSelections(ctx, b, p);
      CollectNone(ScissorsOf, u);
      CollectNone(TexturesOf, u);
      CollectOne(UploadsOf, pr[0]);
      CollectOne(ScissorsOf, pr[0]);
      CollectOne(TexturesOf, pr[0]);
      CollectConcat(UploadsOf, u, pr);
      CollectConcat(ScissorsOf, u, pr);
      CollectConcat(TexturesOf, u, pr);
    }
  }

  /** The scissor, texture and draw that end a successful draw call. */
  lemma TailSelections(t: nat, p: DrawParams)
    ensures var tail := [SetScissor(ScissorAsWritten(p.scissor))] + DrawOps(t, p);
      && Collect(ProjectionsOf, tail) == []
      && Collect(DrawsOf, tail) == DrawKey(p)
      && Collect(HooksIn, tail) == []
      && Collect(UploadsOf, tail) == []
      && Collect(ScissorsOf, tail) == ScissorKey(p)
      && Collect(TexturesOf, tail) == [t]
  {
    var x := SetScissor(ScissorAsWritten(p.scissor));
    var y := PrepareDraw(t, AsU32(p.vtxOffset));
    var z := DrawKey(p)[0];
    assert [x] + DrawOps(t, p) == [x, y, z];
    CollectThree(ProjectionsOf, x, y, z);
    CollectThree(DrawsOf, x, y, z);
    CollectThree(HooksIn, x, y, z);
    CollectThree(UploadsOf, x, y, z);
    CollectThree(ScissorsOf, x, y, z);
    CollectThree(TexturesOf, x, y, z);
  }

  /** What a draw call issues after its scissor: the texture preparation and the
      draw when its texture resolves, nothing when it does not. */
  function ResolvedOps(ctx: Ctx, p: DrawParams): seq<Op> {
    match Resolve(ctx.font, ctx.registry, p.texId)
    case None => []
    case Some(t) => DrawOps(t, p)
  }

  /** Any selection of a draw call's trace is that of its setup, its scissor and
      what follows the scissor. */
  lemma DrawCallCollect<X>(ctx: Ctx, b: Batch, p: DrawParams, pick: Op -> seq<X>)
    ensures Collect(pick, DrawCall(ctx, b, p).trace)
      == Collect(pick, Setup(ctx, b, p).ops) + pick(SetScissor(ScissorAsWritten(p.scissor))) + Collect(pick, ResolvedOps(ctx, p))
  {
    var u := Setup(ctx, b, p).ops;
    var sc := SetScissor(ScissorAsWritten(p.scissor));
    assert DrawCall(ctx, b, p).trace == u + [sc] + ResolvedOps(ctx, p);
    CollectOne(pick, sc);
    CollectConcat(pick, u, [sc]);
    CollectConcat(pick, u + [sc], ResolvedOps(ctx, p));
  }

  /** The texture preparation and the draw that follow a resolved scissor. */
  lemma ResolvedSelections(ctx: Ctx, p: DrawParams)
    ensures Collect(UploadsOf, ResolvedOps(ctx, p)) == []
    ensures Collect(ScissorsOf, ResolvedOps(ctx, p)) == []
    ensures Collect(TexturesOf, ResolvedOps(ctx, p)) == TextureKey(ctx, p)
    ensures Collect(ProjectionsOf, ResolvedOps(ctx, p)) == []
    ensures Collect(HooksIn, ResolvedOps(ctx, p)) == []
    ensures Resolve(ctx.font, ctx.registry, p.texId).Some? ==> Collect(DrawsOf, ResolvedOps(ctx, p)) == DrawKey(p)
  {
    match Resolve(ctx.font, ctx.registry, p.texId)
    case None =>
    case Some(t) =>
      var y := PrepareDraw(t, AsU32(p.vtxOffset));
      var z := DrawKey(p)[0];
      assert ResolvedOps(ctx, p) == [y, z];
      CollectPair(UploadsOf, y, z);
      CollectPair(ScissorsOf, y, z);
      CollectPair(TexturesOf, y, z);
      CollectPair(ProjectionsOf, y, z);
      CollectPair(HooksIn, y, z);
      CollectPair(DrawsOf, y, z);
  }

  /** What one successful draw issues among projections and draw calls. */
  lemma DrawCallSelections(ctx: Ctx, b: Batch, p: DrawParams)
    ensures var r := DrawCall(ctx, b, p);
      r.error.None? ==>
        (&& Collect(ProjectionsOf, r.trace) == ProjectionKey(p)
         && Collect(DrawsOf, r.trace) == DrawKey(p)
         && Collect(HooksIn, r.trace) == [])
  {
    if Resolve(ctx.font, ctx.registry, p.texId).Some? {
      SetupSelectsProjection(ctx, b, p);
      SetupSelectsNoDraws(ctx, b, p);
      ResolvedSelections(ctx, p);
      DrawCallCollect(ctx, b, p, ProjectionsOf);
      DrawCallCollect(ctx, b, p, DrawsOf);
      DrawCallCollect(ctx, b, p, HooksIn);
    }
  }

  /** Failed or not, a draw call uploads the list's data only as the first draw
      call of its list, sets its scissor as written, and hands `prepare_draw` the
      texture its id resolves to (none when it does not resolve). */
  lemma DrawCallUploadsAndPrepares(ctx: Ctx, b: Batch, p: DrawParams)
    ensures var r := DrawCall(ctx, b, p);
      && Collect(UploadsOf, r.trace) == UploadKey(p)
      && Collect(ScissorsOf, r.trace) == ScissorKey(p)
      && Collect(TexturesOf, r.trace) == TextureKey(ctx, p)
  {
    SetupSelectsUploads(ctx, b, p);
    ResolvedSelections(ctx, p);
    DrawCallCollect(ctx, b, p, UploadsOf);
    DrawCallCollect(ctx, b, p, ScissorsOf);
    DrawCallCollect(ctx, b, p, TexturesOf);
  }

  /** `ImGuiFna3d::render`: set the blend state, then draw the frame's draw calls
      in order, stopping at the first error. */
  function Render(ctx: Ctx, b: Batch, d: DrawData): (r: Outcome<Batch, Op, Error>)
    ensures |r.trace| > 0 && r.trace[0] == SetBlendNonPremultiplied
  {
    var run := Run(Visited(d), b, (s, p) => DrawCall(ctx, s, p), h => Hooked(h));
    Outcome(run.state, [SetBlendNonPremultiplied] + run.trace, run.error)
  }

  /** A frame fails exactly when one of the draw calls the loop reaches names a
      texture that is neither the font atlas nor registered; a bad draw call after
      the first unsupported command is never reached. On a frame of `Elements`
      commands only, that is any draw call of the frame. */
  lemma RenderFailsIff(ctx: Ctx, b: Batch, d: DrawData)
    ensures Render(ctx, b, d).error.Some? <==>
      exists p :: p in VisitedParams(d) && p.texId != FONT_TEXTURE_ID && p.texId !in ctx.registry
    ensures ElementsOnly(d) ==> (Render(ctx, b, d).error.Some? <==>
      exists p :: p in Params(d) && p.texId != FONT_TEXTURE_ID && p.texId !in ctx.registry)
  {
    var draw := (s: Batch, p: DrawParams) => DrawCall(ctx, s, p);
    var bad := (p: DrawParams) => p.texId != FONT_TEXTURE_ID && p.texId !in ctx.registry;
    forall t: Batch, p: DrawParams
      ensures draw(t, p).error.Some? <==> bad(p)
    {
      ResolveFailsIff(ctx.font, ctx.registry, p.texId);
    }
    RunFailsIff(Visited(d), b, draw, (h: Hook) => Hooked(h), bad);
    if Render(ctx, b, d).error.Some? {
      var p :| p in Items(Visited(d)) && bad(p);
      assert p in VisitedParams(d) && p.texId != FONT_TEXTURE_ID && p.texId !in ctx.registry;
    }
    if exists p :: p in VisitedParams(d) && p.texId != FONT_TEXTURE_ID && p.texId !in ctx.registry {
      var p :| p in VisitedParams(d) && p.texId != FONT_TEXTURE_ID && p.texId !in ctx.registry;
      assert p in Items(Visited(d)) && bad(p);
    }
    if ElementsOnly(d) {
      ForLoopAsWrittenAgreesOnElementsOnly(d);
    }
  }

  /** The error a failed frame returns names the texture id of one of its draw
      calls, and that id does not resolve. */
  lemma RenderErrorNamesBadTexture(ctx: Ctx, b: Batch, d: DrawData)
    ensures var r := Render(ctx, b, d);
      r.error.Some? ==> exists p :: (&& p in VisitedParams(d) && r.error.value == BadTexture(p.texId)
                                     && p.texId != FONT_TEXTURE_ID && p.texId !in ctx.registry)
  {
    var draw := (s: Batch, p: DrawParams) => DrawCall(ctx, s, p);
    var blame := (p: DrawParams, e: Error) => e == BadTexture(p.texId) && p.texId != FONT_TEXTURE_ID && p.texId !in ctx.registry;
    forall t: Batch, p: DrawParams | draw(t, p).error.Some?
      ensures blame(p, draw(t, p).error.value)
    {
      ResolveFailsIff(ctx.font, ctx.registry, p.texId);
    }
    RunErrorWitness(Visited(d), b, draw, (h: Hook) => Hooked(h), blame);
  }

  /** A frame, failed or not, never shrinks either buffer. */
  lemma RenderNeverShrinksBuffers(ctx: Ctx, b: Batch, d: DrawData)
    ensures var r := Render(ctx, b, d);
      b.vbuf.capacityBytes <= r.state.vbuf.capacityBytes && b.ibuf.capacityBytes <= r.state.ibuf.capacityBytes
  {
    var draw := (s: Batch, p: DrawParams) => DrawCall(ctx, s, p);
    var inv := (s: Batch) => b.vbuf.capacityBytes <= s.vbuf.capacityBytes && b.ibuf.capacityBytes <= s.ibuf.capacityBytes;
    RunPreserves(Visited(d), b, draw, (h: Hook) => Hooked(h), inv, (p: DrawParams) => true);
  }

  /** A successful frame issues exactly one indexed draw per draw call of the
      frame, in order, with the offsets and counts computed from it. */
  lemma RenderDrawsEveryCallInOrder(ctx: Ctx, b: Batch, d: DrawData)
    ensures var r := Render(ctx, b, d);
      r.error.None? ==> Collect(DrawsOf, r.trace) == Gather(DrawKey, VisitedParams(d))
  {
    var draw := (s: Batch, p: DrawParams) => DrawCall(ctx, s, p);
    var side := (h: Hook) => Hooked(h);
    var keys := DrawKey;
    forall t: Batch, p: DrawParams | draw(t, p).error.None?
      ensures Collect(DrawsOf, draw(t, p).trace) == keys(p)
    {
      DrawCallSelections(ctx, t, p);
    }
    RunCollects(Visited(d), b, draw, side, DrawsOf, keys);
    var run := Run(Visited(d), b, draw, side);
    CollectConcat(DrawsOf, [SetBlendNonPremultiplied], run.trace);
  }

  /** A successful frame sets the projection once for each draw call with index
      offset 0, in order, and for no other. */
  lemma RenderProjectionOnlyAtListStart(ctx: Ctx, b: Batch, d: DrawData)
    ensures var r := Render(ctx, b, d);
      r.error.None? ==> Collect(ProjectionsOf, r.trace) == Gather(ProjectionKey, VisitedParams(d))
  {
    var draw := (s: Batch, p: DrawParams) => DrawCall(ctx, s, p);
    var side := (h: Hook) => Hooked(h);
    var keys := ProjectionKey;
    forall t: Batch, p: DrawParams | draw(t, p).error.None?
      ensures Collect(ProjectionsOf, draw(t, p).trace) == keys(p)
    {
      DrawCallSelections(ctx, t, p);
    }
    RunCollects(Visited(d), b, draw, side, ProjectionsOf, keys);
    var run := Run(Visited(d), b, draw, side);
    CollectConcat(ProjectionsOf, [SetBlendNonPremultiplied], run.trace);
  }

  /** A successful frame uploads the vertex and index data once for each reached
      draw call with index offset 0, in order, and for no other. */
  lemma RenderUploadsOnlyAtListStart(ctx: Ctx, b: Batch, d: DrawData)
    ensures var r := Render(ctx, b, d);
      r.error.None? ==> Collect(UploadsOf, r.trace) == Gather(UploadKey, VisitedParams(d))
  {
    var draw := (s: Batch, p: DrawParams) => DrawCall(ctx, s, p);
    var side := (h: Hook) => Hooked(h);
    var keys := UploadKey;
    forall t: Batch, p: DrawParams | draw(t, p).error.None?
      ensures Collect(UploadsOf, draw(t, p).trace) == keys(p)
    {
      DrawCallUploadsAndPrepares(ctx, t, p);
    }
    RunCollects(Visited(d), b, draw, side, UploadsOf, keys);
    var run := Run(Visited(d), b, draw, side);
    CollectConcat(UploadsOf, [SetBlendNonPremultiplied], run.trace);
  }

  /** A successful frame sets one scissor per reached draw call, in order, each
      the call's scissor rectangle as written. */
  lemma RenderScissorsEveryCall(ctx: Ctx, b: Batch, d: DrawData)
    ensures var r := Render(ctx, b, d);
      r.error.None? ==> Collect(ScissorsOf, r.trace) == Gather(ScissorKey, VisitedParams(d))
  {
    var draw := (s: Batch, p: DrawParams) => DrawCall(ctx, s, p);
    var side := (h: Hook) => Hooked(h);
    var keys := ScissorKey;
    forall t: Batch, p: DrawParams | draw(t, p).error.None?
      ensures Collect(ScissorsOf, draw(t, p).trace) == keys(p)
    {
      DrawCallUploadsAndPrepares(ctx, t, p);
    }
    RunCollects(Visited(d), b, draw, side, ScissorsOf, keys);
    var run := Run(Visited(d), b, draw, side);
    CollectConcat(ScissorsOf, [SetBlendNonPremultiplied], run.trace);
  }

  /** A successful frame hands `prepare_draw` the texture each reached draw call's
      id resolves to, one per call, in order. */
  lemma RenderPreparesResolvedTexture(ctx: Ctx, b: Batch, d: DrawData)
    ensures var r := Render(ctx, b, d);
      r.error.None? ==> Collect(TexturesOf, r.trace) == Gather((p: DrawParams) => TextureKey(ctx, p), VisitedParams(d))
  {
    var draw := (s: Batch, p: DrawParams) => DrawCall(ctx, s, p);
    var side := (h: Hook) => Hooked(h);
    var keys := (p: DrawParams) => TextureKey(ctx, p);
    forall t: Batch, p: DrawParams | draw(t, p).error.None?
      ensures Collect(TexturesOf, draw(t, p).trace) == keys(p)
    {
      DrawCallUploadsAndPrepares(ctx, t, p);
    }
    RunCollects(Visited(d), b, draw, side, TexturesOf, keys);
    var run := Run(Visited(d), b, draw, side);
    CollectConcat(TexturesOf, [SetBlendNonPremultiplied], run.trace);
  }

  /** A successful frame performs the side effect of the frame's first unsupported
      command, if it has one, and no other: the loop as written ends there. */
  lemma RenderPassesSideEffects(ctx: Ctx, b: Batch, d: DrawData)
    ensures var r := Render(ctx, b, d);
      r.error.None? ==> Collect(HooksIn, r.trace) == HooksOf(Visited(d)) && |HooksOf(Visited(d))| <= 1
  {
    var draw := (s: Batch, p: DrawParams) => DrawCall(ctx, s, p);
    var side := (h: Hook) => Hooked(h);
    forall t: Batch, p: DrawParams | draw(t, p).error.None?
      ensures Collect(HooksIn, draw(t, p).trace) == []
    {
      DrawCallSelections(ctx, t, p);
    }
    RunPassesSideEffects(Visited(d), b, draw, side, HooksIn);
    VisitedHooks(d);
    var run := Run(Visited(d), b, draw, side);
    CollectConcat(HooksIn, [SetBlendNonPremultiplied], run.trace);
  }

  /** Once the steps up to some point fail, the frame ends there: the later steps
      issue nothing. */
  lemma RenderStopsAtFirstError(ctx: Ctx, b: Batch, d: DrawData, k: nat)
    requires k <= |Visited(d)|
    requires Run(Visited(d)[..k], b, (s, p) => DrawCall(ctx, s, p), h => Hooked(h)).error.Some?
    ensures var prefix := Run(Visited(d)[..k], b, (s, p) => DrawCall(ctx, s, p), h => Hooked(h));
      Render(ctx, b, d) == Outcome(prefix.state, [SetBlendNonPremultiplied] + prefix.trace, prefix.error)
  {
    assert Visited(d) == Visited(d)[..k] + Visited(d)[k..];
    RunStopsAtFirstError(Visited(d)[..k], Visited(d)[k..], b, (s, p) => DrawCall(ctx, s, p), h => Hooked(h));
  }

  /** A raw callback followed by a visible draw: the frame runs the callback and
      returns `Ok`, without drawing or even resolving the draw's texture. */
  lemma RenderEndsAtCallback(ctx: Ctx, b: Batch, d: DrawData, u: nat, cmd: DrawCmd)
    requires CallbackThenDraw(d, u, cmd)
    ensures Render(ctx, b, d) == Outcome(b, [SetBlendNonPremultiplied, Hooked(CallbackRan(0, u))], None)
  {
    CallbackThenDrawAsWritten(d, u, cmd);
    var h := CallbackRan(0, u);
    var draw := (s: Batch, p: DrawParams) => DrawCall(ctx, s, p);
    var side := (h: Hook) => Hooked(h);
    assert [Side(h)][1..] == [];
    assert Run([], b, draw, side) == Outcome(b, [], None);
    assert Run([Side(h)], b, draw, side) == Outcome(b, [Hooked(h)], None);
  }
}
