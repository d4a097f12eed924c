/** The glow (OpenGL) adapter: per frame, rewind the buffers and bind the
    pipeline; per draw call, append the list's geometry and set the projection
    on the first call of a list, set the scissor, select and bind the texture,
    and draw. */
module Glow {
  import opened Base
  import opened Geometry
  import opened Draw
  import opened DrawIter
  import opened Textures
  import opened Driver
  import opened GlowRes

  /** `Err(format!("Bad texture id: .."))`, or the failed capacity assertion of
      an append (a panic, which ends the frame just the same). */
  datatype Error = BadTextureId(id: nat) | AppendOverflow(kind: BufferKind)

  /** The font atlas texture, the registry of user textures, the index width of
      the GUI build, and the y-axis convention of `Rect::up` / `Rect::down`,
      which the shown `Rect` does not define. */
  datatype Ctx = Ctx(font: nat, registry: map<nat, nat>, idx: IndexWidth, up: UpDown)

  /** `ImGuiGlow::new`: allocate the resources and select the font atlas. */
  function New(font: nat, idx: IndexWidth): (r: Option<Resources>)
    ensures r.Some? && WithinCapacity(r.value)
    ensures r.value.tex == Some(font)
    ensures r.value.vbuf.lenBytes == 0 && r.value.ibuf.lenBytes == 0
  {
    match NewResources(idx)
    case None => None
    case Some(res) => Some(SetTexture(res, font))
  }

  datatype Staged = Staged(res: Resources, ops: seq<Op>)

  /** `before_render`: rewind both buffers, then bind with the selected texture. */
  function BeforeRender(r: Resources): (s: Staged)
    ensures s.res.vbuf.lenBytes == 0 && s.res.ibuf.lenBytes == 0
    ensures s.res.vbuf.capacityBytes == r.vbuf.capacityBytes && s.res.ibuf.capacityBytes == r.ibuf.capacityBytes
    ensures s.res.tex == r.tex && s.ops == [Bind(r.tex)]
    ensures WithinCapacity(r) ==> WithinCapacity(s.res)
  {
    Staged(ResetBufOffsets(r), [Bind(r.tex)])
  }

  /** The first frame binds the font atlas. */
  lemma FirstFrameBindsFont(font: nat, idx: IndexWidth)
    ensures BeforeRender(New(font, idx).value).ops == [Bind(Some(font))]
  {
  }

  /** Whether the first draw call of a list finds room for its list's geometry. */
  predicate Fits(ctx: Ctx, r: Resources, p: DrawParams) {
    && r.vbuf.lenBytes + DRAW_VERT_SIZE * |p.vtxBuffer| <= r.vbuf.capacityBytes
    && r.ibuf.lenBytes + IndexSize(ctx.idx) * |p.idxBuffer| <= r.ibuf.capacityBytes
  }

  /** The bytes a draw call appends to the vertex and to the index buffer. */
  function VertexBytes(p: DrawParams): int {
    if p.idxOffset == 0 then DRAW_VERT_SIZE * |p.vtxBuffer| else 0
  }

  function IndexBytes(ctx: Ctx, p: DrawParams): int {
    if p.idxOffset == 0 then IndexSize(ctx.idx) * |p.idxBuffer| else 0
  }

  /** Neither `append` wraps: each watermark plus the bytes appended to it stays
      within i32 range. */
  predicate NoWrap(ctx: Ctx, r: Resources, p: DrawParams) {
    && r.vbuf.lenBytes + DRAW_VERT_SIZE * |p.vtxBuffer| <= I32_MAX
    && r.ibuf.lenBytes + IndexSize(ctx.idx) * |p.idxBuffer| <= I32_MAX
  }

  /** The two appends as written: never rejecting geometry that fits, and equal
      to the intended appends while nothing wraps. */
  lemma AppendsAsWritten(ctx: Ctx, r: Resources, p: DrawParams)
    ensures WithinCapacity(r) ==>
      && (AppendAsWritten(ArrayBuffer, r.vbuf, DRAW_VERT_SIZE, |p.vtxBuffer|).None? ==>
            r.vbuf.lenBytes + DRAW_VERT_SIZE * |p.vtxBuffer| > r.vbuf.capacityBytes)
      && (AppendAsWritten(ElementArrayBuffer, r.ibuf, IndexSize(ctx.idx), |p.idxBuffer|).None? ==>
            r.ibuf.lenBytes + IndexSize(ctx.idx) * |p.idxBuffer| > r.ibuf.capacityBytes)
    ensures WithinCapacity(r) && NoWrap(ctx, r, p) ==>
      && AppendAsWritten(ArrayBuffer, r.vbuf, DRAW_VERT_SIZE, |p.vtxBuffer|) == Append(ArrayBuffer, r.vbuf, DRAW_VERT_SIZE, |p.vtxBuffer|)
      && AppendAsWritten(ElementArrayBuffer, r.ibuf, IndexSize(ctx.idx), |p.idxBuffer|)
         == Append(ElementArrayBuffer, r.ibuf, IndexSize(ctx.idx), |p.idxBuffer|)
  {
    if WithinCapacity(r) {
      AppendAsWrittenFailsOnlyOnOverflow(ArrayBuffer, r.vbuf, DRAW_VERT_SIZE, |p.vtxBuffer|);
      AppendAsWrittenFailsOnlyOnOverflow(ElementArrayBuffer, r.ibuf, IndexSize(ctx.idx), |p.idxBuffer|);
      if NoWrap(ctx, r, p) {
        AppendAsWrittenAgreesInRange(ArrayBuffer, r.vbuf, DRAW_VERT_SIZE, |p.vtxBuffer|);
        AppendAsWrittenAgreesInRange(ElementArrayBuffer, r.ibuf, IndexSize(ctx.idx), |p.idxBuffer|);
      }
    }
  }

  /** The first draw call of a list appends the list's vertices and indices and
      sets the projection; other draw calls do nothing here. The appends are the
      code as written, with the wrapping `as i32` cast: while nothing wraps, the
      upload fails exactly when the geometry does not fit, and a failure always
      means it does not fit. */
  function Upload(ctx: Ctx, r: Resources, p: DrawParams): (o: Outcome<Resources, Op, Error>)
    ensures o.error.Some? ==> o.error.value.AppendOverflow? && p.idxOffset == 0
    ensures o.error.Some? && WithinCapacity(r) ==> !Fits(ctx, r, p)
    ensures WithinCapacity(r) && NoWrap(ctx, r, p) ==> (o.error.None? <==> p.idxOffset != 0 || Fits(ctx, r, p))
    ensures WithinCapacity(r) && NoWrap(ctx, r, p) && o.error.None? ==>
      (&& o.state.vbuf == Buffer(r.vbuf.lenBytes + VertexBytes(p), r.vbuf.capacityBytes)
       && o.state.ibuf == Buffer(r.ibuf.lenBytes + IndexBytes(ctx, p), r.ibuf.capacityBytes))
    ensures o.state.tex == r.tex
    ensures o.state.vbuf.capacityBytes == r.vbuf.capacityBytes && o.state.ibuf.capacityBytes == r.ibuf.capacityBytes
    ensures WithinCapacity(r) && NoWrap(ctx, r, p) ==> WithinCapacity(o.state)
  {
    AppendsAsWritten(ctx, r, p);
    if p.idxOffset != 0 then Outcome(r, [], None)
    else match AppendAsWritten(ArrayBuffer, r.vbuf, DRAW_VERT_SIZE, |p.vtxBuffer|)
      case None => Outcome(r, [], Some(AppendOverflow(ArrayBuffer)))
      case Some(v) =>
        match AppendAsWritten(ElementArrayBuffer, r.ibuf, IndexSize(ctx.idx), |p.idxBuffer|)
        case None => Outcome(r.(vbuf := v.buf), [v.op], Some(AppendOverflow(ElementArrayBuffer)))
        case Some(i) =>
          Outcome(r.(vbuf := v.buf, ibuf := i.buf), [v.op, i.op, SetUniforms(ProjectionOf(p.display, ctx.up))], None)
  }

  /** `gl.scissor(left, up, right, down)`, each cast `as i32`. */
  function GlowScissor(sc: Rect, c: UpDown): ScissorBox {
    ScissorBox(TruncToI32(sc.left), TruncToI32(Up(sc, c)), TruncToI32(sc.right), TruncToI32(Down(sc, c)))
  }

  /** With `up` the top edge, and no display offset, the scissor box is the
      transformed clip rectangle: its lower-left corner in a y-up framebuffer, and
      its width and height. */
  lemma GlowScissorIsTransformedClip(f: Frame, c: ClipRect)
    requires f.clipOff == Vec2(0.0, 0.0)
    ensures var t := TransformClip(c, f.clipOff, f.clipScale);
      GlowScissor(ScissorOf(f, c), UpIsTop)
        == ScissorBox(TruncToI32(t.x), TruncToI32(f.fbHeight - t.w), TruncToI32(t.z - t.x), TruncToI32(t.w - t.y))
  {
    ScissorMatchesTransformedClip(f, c);
  }

  /** Bind with texture `t` selected, then draw with the draw call's element
      count, index offset and vertex offset, each cast `as i32`. */
  function DrawKey(ctx: Ctx, t: nat, p: DrawParams): seq<Op> {
    [Bind(Some(t)), DrawOp(ctx.idx, WrapI32(p.nElems), WrapI32(p.idxOffset), WrapI32(p.vtxOffset))]
  }

  /** `ImGuiGlow::draw`. While the appends do not wrap, it fails exactly when the
      first draw call of a list finds no room or the texture id does not resolve. */
  function DrawCall(ctx: Ctx, r: Resources, p: DrawParams): (o: Outcome<Resources, Op, Error>)
    ensures WithinCapacity(r) && NoWrap(ctx, r, p) ==>
      (o.error.None? <==> (p.idxOffset != 0 || Fits(ctx, r, p)) && Resolve(ctx.font, ctx.registry, p.texId).Some?)
    ensures o.error.Some? && o.error.value.BadTextureId? ==>
      o.error.value.id == p.texId && Resolve(ctx.font, ctx.registry, p.texId).None?
    ensures o.error.Some? && o.error.value.AppendOverflow? ==> p.idxOffset == 0 && (WithinCapacity(r) ==> !Fits(ctx, r, p))
    ensures o.error.None? ==> Resolve(ctx.font, ctx.registry, p.texId).Some?
    ensures o.error.Some? ==> forall i :: 0 <= i < |o.trace| ==> !o.trace[i].DrawElementsBaseVertex?
    ensures o.error.Some? && o.error.value.BadTextureId? ==>
      |o.trace| >= 1 && o.trace[|o.trace| - 1] == SetScissor(GlowScissor(p.scissor, ctx.up))
    ensures o.error.None? ==>
      (&& Resolve(ctx.font, ctx.registry, p.texId) == o.state.tex
       && |o.trace| >= 3
       && o.trace[|o.trace| - 3] == SetScissor(GlowScissor(p.scissor, ctx.up))
       && o.trace[|o.trace| - 2..] == DrawKey(ctx, o.state.tex.value, p))
    ensures p.idxOffset != 0 ==> o.state.vbuf == r.vbuf && o.state.ibuf == r.ibuf
    ensures o.state.vbuf.capacityBytes == r.vbuf.capacityBytes && o.state.ibuf.capacityBytes == r.ibuf.capacityBytes
    ensures WithinCapacity(r) && NoWrap(ctx, r, p) ==> WithinCapacity(o.state)
  {
    AfterUpload(ctx, Upload(ctx, r, p), p)
  }

  /** The rest of `draw` once the upload has run: a failed upload ends the draw;
      otherwise set the scissor, resolve the texture, bind and draw. */
  function AfterUpload(ctx: Ctx, u: Outcome<Resources, Op, Error>, p: DrawParams): Outcome<Resources, Op, Error> {
    if u.error.Some? then u
    else
      var ops := u.trace + [SetScissor(GlowScissor(p.scissor, ctx.up))];
      match Resolve(ctx.font, ctx.registry, p.texId)
      case None => Outcome(u.state, ops, Some(BadTextureId(p.texId)))
      case Some(t) => Outcome(SetTexture(u.state, t), ops + DrawKey(ctx, t, p), None)
  }

  /** A buffer write, without the offset, which depends on the watermark. */
  datatype Write = Write(kind: BufferKind, bytes: nat)

  function WritesOf(o: Op): seq<Write> {
    if o.BufferSubData? then [Write(o.kind, o.bytes)] else []
  }

  function WriteKey(ctx: Ctx, p: DrawParams): seq<Write> {
    if p.idxOffset == 0 then [Write(ArrayBuffer, DRAW_VERT_SIZE * |p.vtxBuffer|), Write(ElementArrayBuffer, IndexSize(ctx.idx) * |p.idxBuffer|)]
    else []
  }

  function UniformsOf(o: Op): seq<Ortho> {
    if o.SetUniforms? then [o.o] else []
  }

  function UniformKey(ctx: Ctx, p: DrawParams): seq<Ortho> {
    if p.idxOffset == 0 then [ProjectionOf(p.display, ctx.up)] else []
  }

  /** Binds and draws. */
  function BindsAndDraws(o: Op): seq<Op> {
    if o.Bind? || o.DrawElementsBaseVertex? then [o] else []
  }

  function BindDrawKey(ctx: Ctx, p: DrawParams): seq<Op> {
    match Resolve(ctx.font, ctx.registry, p.texId)
    case None => []
    case Some(t) => DrawKey(ctx, t, p)
  }

  function HooksIn(o: Op): seq<Hook> {
    if o.Hooked? then [o.hook] else []
  }

  function Unbinds(o: Op): seq<Op> {
    if o.Unbind? then [o] else []
  }

  /** The scissor boxes set. */
  function ScissorsOf(o: Op): seq<ScissorBox> {
    if o.SetScissor? then [o.box] else []
  }

  /** A draw call whose upload succeeds sets its scissor rectangle through
      `up()`/`down()`. */
  function ScissorKey(ctx: Ctx, p: DrawParams): seq<ScissorBox> {
    [GlowScissor(p.scissor, ctx.up)]
  }

  /** An upload issues no bind, draw, side effect or unbind. */
  lemma UploadSelectsNoBinds(ctx: Ctx, r: Resources, p: DrawParams)
    ensures var u := Upload(ctx, r, p);
      && Collect(BindsAndDraws, u.trace) == []
      && Collect(HooksIn, u.trace) == []
      && Collect(Unbinds, u.trace) == []
      && Collect(ScissorsOf, u.trace) == []
  {
    var u := Upload(ctx, r, p);
    if |u.trace| == 1 {
      CollectOne(BindsAndDraws, u.trace[0]);
      CollectOne(HooksIn, u.trace[0]);
      CollectOne(Unbinds, u.trace[0]);
      CollectOne(ScissorsOf, u.trace[0]);
    } else if |u.trace| == 3 {
      var s := u.trace;
      CollectThree(BindsAndDraws, s[0], s[1], s[2]);
      CollectThree(HooksIn, s[0], s[1], s[2]);
      CollectThree(Unbinds, s[0], s[1], s[2]);
      CollectThree(ScissorsOf, s[0], s[1], s[2]);
    }
  }

  /** A successful upload writes the list's geometry and sets the projection,
      for the first draw call of a list only. */
  lemma UploadSelectsWrites(ctx: Ctx, r: Resources, p: DrawParams)
    ensures var u := Upload(ctx, r, p);
      u.error.None? ==>
        (&& Collect(WritesOf, u.trace) == WriteKey(ctx, p)
         && Collect(UniformsOf, u.trace) == UniformKey(ctx, p))
  {
    var u := Upload(ctx, r, p);
    if u.error.None? && p.idxOffset == 0 {
      var s := u.trace;
      CollectThree(WritesOf, s[0], s[1], s[2]);
      CollectThree(UniformsOf, s[0], s[1], s[2]);
    }
  }

  /** The scissor and, on success, the bind and draw that follow the upload. */
  lemma TailSelections(ctx: Ctx, sc: Op, t: nat, p: DrawParams)
    requires sc.SetScissor?
    ensures var tail := [sc] + DrawKey(ctx, t, p);
      && Collect(BindsAndDraws, tail) == DrawKey(ctx, t, p)
      && Collect(WritesOf, tail) == [] && Collect(UniformsOf, tail) == []
      && Collect(HooksIn, tail) == [] && Collect(Unbinds, tail) == []
      && Collect(BindsAndDraws, [sc]) == [] && Collect(Unbinds, [sc]) == []
      && Collect(ScissorsOf, tail) == [sc.box] && Collect(ScissorsOf, [sc]) == [sc.box]
  {
    var k := DrawKey(ctx, t, p);
    assert [sc] + k == [sc, k[0], k[1]];
    CollectThree(BindsAndDraws, sc, k[0], k[1]);
    CollectThree(WritesOf, sc, k[0], k[1]);
    CollectThree(UniformsOf, sc, k[0], k[1]);
    CollectThree(HooksIn, sc, k[0], k[1]);
    CollectThree(Unbinds, sc, k[0], k[1]);
    CollectThree(ScissorsOf, sc, k[0], k[1]);
    CollectOne(BindsAndDraws, sc);
    CollectOne(Unbinds, sc);
    CollectOne(ScissorsOf, sc);
  }

  /** Any selection of what follows an upload is that of the upload, followed,
      when the upload succeeded, by the scissor and the bind and draw of a
      resolved texture. */
  lemma AfterUploadCollect<X>(ctx: Ctx, u: Outcome<Resources, Op, Error>, p: DrawParams, pick: Op -> seq<X>)
    ensures Collect(pick, AfterUpload(ctx, u, p).trace)
      == Collect(pick, u.trace)
         + (if u.error.Some? then [] else pick(SetScissor(GlowScissor(p.scissor, ctx.up))) + Collect(pick, BindDrawKey(ctx, p)))
  {
    if u.error.None? {
      var sc := SetScissor(GlowScissor(p.scissor, ctx.up));
      assert AfterUpload(ctx, u, p).trace == u.trace + [sc] + BindDrawKey(ctx, p);
      CollectOne(pick, sc);
      CollectConcat(pick, u.trace, [sc]);
      CollectConcat(pick, u.trace + [sc], BindDrawKey(ctx, p));
    }
  }

  /** The bind and draw of a resolved texture, among the selected operations. */
  lemma BindDrawSelections(ctx: Ctx, p: DrawParams)
    ensures Collect(BindsAndDraws, BindDrawKey(ctx, p)) == BindDrawKey(ctx, p)
    ensures Collect(WritesOf, BindDrawKey(ctx, p)) == [] && Collect(UniformsOf, BindDrawKey(ctx, p)) == []
    ensures Collect(HooksIn, BindDrawKey(ctx, p)) == [] && Collect(Unbinds, BindDrawKey(ctx, p)) == []
    ensures Collect(ScissorsOf, BindDrawKey(ctx, p)) == []
  {
    match Resolve(ctx.font, ctx.registry, p.texId)
    case None =>
    case Some(t) =>
      var k := DrawKey(ctx, t, p);
      assert k == [k[0], k[1]];
      CollectPair(BindsAndDraws, k[0], k[1]);
      CollectPair(WritesOf, k[0], k[1]);
      CollectPair(UniformsOf, k[0], k[1]);
      CollectPair(HooksIn, k[0], k[1]);
      CollectPair(Unbinds, k[0], k[1]);
      CollectPair(ScissorsOf, k[0], k[1]);
  }

  /** After an upload that issued no bind, draw, side effect, unbind or scissor,
      the rest of the draw adds the bind and draw of a resolved texture, its
      scissor, and nothing else among these. */
  lemma AfterUploadSelections(ctx: Ctx, u: Outcome<Resources, Op, Error>, p: DrawParams)
    requires Collect(BindsAndDraws, u.trace) == [] && Collect(HooksIn, u.trace) == []
    requires Collect(Unbinds, u.trace) == [] && Collect(ScissorsOf, u.trace) == []
    ensures var o := AfterUpload(ctx, u, p);
      && Collect(Unbinds, o.trace) == []
      && Collect(HooksIn, o.trace) == []
      && Collect(WritesOf, o.trace) == Collect(WritesOf, u.trace)
      && Collect(UniformsOf, o.trace) == Collect(UniformsOf, u.trace)
      && (o.error.None? ==> Collect(BindsAndDraws, o.trace) == BindDrawKey(ctx, p))
      && (u.error.None? ==> Collect(ScissorsOf, o.trace) == ScissorKey(ctx, p))
      && (u.error.Some? ==> Collect(ScissorsOf, o.trace) == [])
  {
    BindDrawSelections(ctx, p);
    AfterUploadCollect(ctx, u, p, Unbinds);
    AfterUploadCollect(ctx, u, p, HooksIn);
    AfterUploadCollect(ctx, u, p, WritesOf);
    AfterUploadCollect(ctx, u, p, UniformsOf);
    AfterUploadCollect(ctx, u, p, BindsAndDraws);
    AfterUploadCollect(ctx, u, p, ScissorsOf);
  }

  /** What one draw call issues among the selected operations. */
  lemma DrawCallSelections(ctx: Ctx, r: Resources, p: DrawParams)
    ensures var o := DrawCall(ctx, r, p);
      && Collect(Unbinds, o.trace) == []
      && (o.error.None? ==>
        (&& Collect(BindsAndDraws, o.trace) == BindDrawKey(ctx, p)
         && Collect(WritesOf, o.trace) == WriteKey(ctx, p)
         && Collect(UniformsOf, o.trace) == UniformKey(ctx, p)
         && Collect(HooksIn, o.trace) == []))
  {
    UploadSelectsNoBinds(ctx, r, p);
    UploadSelectsWrites(ctx, r, p);
    AfterUploadSelections(ctx, Upload(ctx, r, p), p);
  }

  /** A draw call sets its scissor once, through `up()`/`down()`, unless its
      append fails, and then it sets none. */
  lemma DrawCallScissors(ctx: Ctx, r: Resources, p: DrawParams)
    ensures var o := DrawCall(ctx, r, p);
      && (o.error.Some? && o.error.value.AppendOverflow? ==> Collect(ScissorsOf, o.trace) == [])
      && (o.error.None? || o.error.value.BadTextureId? ==> Collect(ScissorsOf, o.trace) == ScissorKey(ctx, p))
  {
    UploadSelectsNoBinds(ctx, r, p);
    AfterUploadSelections(ctx, Upload(ctx, r, p), p);
  }

  /** The frame's loop: the draw calls and side effects in order. */
  function Loop(ctx: Ctx, r: Resources, d: DrawData): Outcome<Resources, Op, Error> {
    Run(Visited(d), r, (s: Resources, p: DrawParams) => DrawCall(ctx, s, p), (h: Hook) => Hooked(h))
  }

  /** `render`: `before_render`, the draw calls in order up to the first error,
      and `after_render` (unbind) only if none failed. */
  function Render(ctx: Ctx, r: Resources, d: DrawData): (o: Outcome<Resources, Op, Error>)
    ensures |o.trace| >= 1 && o.trace[0] == Bind(r.tex)
    ensures o.error.None? ==> o.trace[|o.trace| - 1] == Unbind
  {
    var pre := BeforeRender(r);
    var run := Loop(ctx, pre.res, d);
    Outcome(run.state, pre.ops + run.trace + (if run.error.None? then [Unbind] else []), run.error)
  }

  /** A frame's error is blamed on one of its draw calls: a bad texture id names
      the id of a draw call that does not resolve; a failed append happens at the
      first draw call of a list. So a frame whose textures all resolve never fails
      on a texture. */
  lemma RenderErrorBlame(ctx: Ctx, r: Resources, d: DrawData)
    ensures var o := Render(ctx, r, d);
      && (o.error.Some? && o.error.value.BadTextureId? ==>
        exists p :: (&& p in VisitedParams(d) && p.texId == o.error.value.id
                     && p.texId != FONT_TEXTURE_ID && p.texId !in ctx.registry))
      && (o.error.Some? && o.error.value.AppendOverflow? ==>
        exists p :: p in VisitedParams(d) && p.idxOffset == 0)
  {
    var draw := (s: Resources, p: DrawParams) => DrawCall(ctx, s, p);
    var blame := (p: DrawParams, e: Error) =>
      match e
      case BadTextureId(id) => p.texId == id && p.texId != FONT_TEXTURE_ID && p.texId !in ctx.registry
      case AppendOverflow(_) => p.idxOffset == 0;
    forall t: Resources, p: DrawParams | draw(t, p).error.Some?
      ensures blame(p, draw(t, p).error.value)
    {
      ResolveFailsIff(ctx.font, ctx.registry, p.texId);
    }
    RunErrorWitness(Visited(d), BeforeRender(r).res, draw, (h: Hook) => Hooked(h), blame);
  }

  /** A list's geometry that cannot make an append wrap on buffers of `r`'s
      capacities: with the watermark anywhere up to the capacity, the bytes added
      stay within i32 range. */
  predicate GeometryInRange(ctx: Ctx, r: Resources, p: DrawParams) {
    && r.vbuf.capacityBytes + DRAW_VERT_SIZE * |p.vtxBuffer| <= I32_MAX
    && r.ibuf.capacityBytes + IndexSize(ctx.idx) * |p.idxBuffer| <= I32_MAX
  }

  /** Both watermarks within the capacities of `r`, which they keep. */
  predicate Watermarked(r: Resources, s: Resources) {
    && WithinCapacity(s)
    && s.vbuf.capacityBytes == r.vbuf.capacityBytes
    && s.ibuf.capacityBytes == r.ibuf.capacityBytes
  }

  /** Every frame leaves the capacities unchanged, and a frame whose lists'
      geometry cannot make an append wrap keeps both watermarks within their
      buffers. */
  lemma RenderKeepsBuffersValid(ctx: Ctx, r: Resources, d: DrawData)
    requires WithinCapacity(r)
    requires forall p :: p in VisitedParams(d) ==> GeometryInRange(ctx, r, p)
    ensures var o := Render(ctx, r, d);
      && WithinCapacity(o.state)
      && o.state.vbuf.capacityBytes == r.vbuf.capacityBytes
      && o.state.ibuf.capacityBytes == r.ibuf.capacityBytes
  {
    var draw := (s: Resources, p: DrawParams) => DrawCall(ctx, s, p);
    var inv := (s: Resources) => Watermarked(r, s);
    var good := (p: DrawParams) => GeometryInRange(ctx, r, p);
    forall t: Resources, p: DrawParams | inv(t) && good(p)
      ensures inv(draw(t, p).state)
    {
      assert NoWrap(ctx, t, p);
    }
    RunPreserves(Visited(d), BeforeRender(r).res, draw, (h: Hook) => Hooked(h), inv, good);
  }

  /** After a successful frame whose lists' geometry cannot make an append wrap,
      each watermark is the number of bytes the frame appended: the geometry of
      every list that has a draw call with index offset 0 before the loop ends. */
  lemma RenderWatermarks(ctx: Ctx, r: Resources, d: DrawData)
    requires WithinCapacity(r)
    requires forall p :: p in VisitedParams(d) ==> GeometryInRange(ctx, r, p)
    ensures var o := Render(ctx, r, d);
      o.error.None? ==>
        (&& o.state.vbuf.lenBytes == Sum(VertexBytes, VisitedParams(d))
         && o.state.ibuf.lenBytes == Sum((p: DrawParams) => IndexBytes(ctx, p), VisitedParams(d)))
  {
    var draw := (s: Resources, p: DrawParams) => DrawCall(ctx, s, p);
    var side := (h: Hook) => Hooked(h);
    var pre := BeforeRender(r).res;
    var inv := (s: Resources) => Watermarked(r, s);
    var good := (p: DrawParams) => GeometryInRange(ctx, r, p);
    var vb := (s: Resources) => s.vbuf.lenBytes;
    var ib := (s: Resources) => s.ibuf.lenBytes;
    var iw := (p: DrawParams) => IndexBytes(ctx, p);
    forall t: Resources, p: DrawParams | inv(t) && good(p) && draw(t, p).error.None?
      ensures vb(draw(t, p).state) == vb(t) + VertexBytes(p) && inv(draw(t, p).state)
      ensures ib(draw(t, p).state) == ib(t) + iw(p)
    {
      assert NoWrap(ctx, t, p);
    }
    RunAccumulates(Visited(d), pre, draw, side, vb, VertexBytes, inv, good);
    RunAccumulates(Visited(d), pre, draw, side, ib, iw, inv, good);
  }

  /** A successful frame binds with the frame's selected texture, then for each
      draw call, in order, binds with that call's resolved texture and draws it. */
  lemma RenderBindsBeforeEveryDraw(ctx: Ctx, r: Resources, d: DrawData)
    ensures var o := Render(ctx, r, d);
      o.error.None? ==>
        Collect(BindsAndDraws, o.trace) == [Bind(r.tex)] + Gather((p: DrawParams) => BindDrawKey(ctx, p), VisitedParams(d))
  {
    var draw := (s: Resources, p: DrawParams) => DrawCall(ctx, s, p);
    var side := (h: Hook) => Hooked(h);
    var keys := (p: DrawParams) => BindDrawKey(ctx, p);
    forall t: Resources, p: DrawParams | draw(t, p).error.None?
      ensures Collect(BindsAndDraws, draw(t, p).trace) == keys(p)
    {
      DrawCallSelections(ctx, t, p);
    }
    RunCollects(Visited(d), BeforeRender(r).res, draw, side, BindsAndDraws, keys);
    var run := Loop(ctx, BeforeRender(r).res, d);
    CollectOne(BindsAndDraws, Bind(r.tex));
    FrameEnvelope(BindsAndDraws, r.tex, run.trace);
  }

  /** A successful frame appends both buffers once for each draw call with index
      offset 0, in order, each with its list's whole geometry, and for no other. */
  lemma RenderAppendsOnlyAtListStart(ctx: Ctx, r: Resources, d: DrawData)
    ensures var o := Render(ctx, r, d);
      o.error.None? ==> Collect(WritesOf, o.trace) == Gather((p: DrawParams) => WriteKey(ctx, p), VisitedParams(d))
  {
    var draw := (s: Resources, p: DrawParams) => DrawCall(ctx, s, p);
    var side := (h: Hook) => Hooked(h);
    var keys := (p: DrawParams) => WriteKey(ctx, p);
    forall t: Resources, p: DrawParams | draw(t, p).error.None?
      ensures Collect(WritesOf, draw(t, p).trace) == keys(p)
    {
      DrawCallSelections(ctx, t, p);
    }
    RunCollects(Visited(d), BeforeRender(r).res, draw, side, WritesOf, keys);
    var run := Loop(ctx, BeforeRender(r).res, d);
    CollectOne(WritesOf, Bind(r.tex));
    FrameEnvelope(WritesOf, r.tex, run.trace);
  }

  /** A successful frame sets the projection uniform once for each draw call with
      index offset 0, in order, and for no other. */
  lemma RenderUniformsOnlyAtListStart(ctx: Ctx, r: Resources, d: DrawData)
    ensures var o := Render(ctx, r, d);
      o.error.None? ==> Collect(UniformsOf, o.trace) == Gather((p: DrawParams) => UniformKey(ctx, p), VisitedParams(d))
  {
    var draw := (s: Resources, p: DrawParams) => DrawCall(ctx, s, p);
    var side := (h: Hook) => Hooked(h);
    var keys := (p: DrawParams) => UniformKey(ctx, p);
    forall t: Resources, p: DrawParams | draw(t, p).error.None?
      ensures Collect(UniformsOf, draw(t, p).trace) == keys(p)
    {
      DrawCallSelections(ctx, t, p);
    }
    RunCollects(Visited(d), BeforeRender(r).res, draw, side, UniformsOf, keys);
    var run := Loop(ctx, BeforeRender(r).res, d);
    CollectOne(UniformsOf, Bind(r.tex));
    FrameEnvelope(UniformsOf, r.tex, run.trace);
  }

  /** A successful frame sets one scissor per reached draw call, in order, each
      the call's scissor rectangle through `up()`/`down()`. */
  lemma RenderScissorsEveryCall(ctx: Ctx, r: Resources, d: DrawData)
    ensures var o := Render(ctx, r, d);
      o.error.None? ==> Collect(ScissorsOf, o.trace) == Gather((p: DrawParams) => ScissorKey(ctx, p), VisitedParams(d))
  {
    var draw := (s: Resources, p: DrawParams) => DrawCall(ctx, s, p);
    var side := (h: Hook) => Hooked(h);
    var keys := (p: DrawParams) => ScissorKey(ctx, p);
    forall t: Resources, p: DrawParams | draw(t, p).error.None?
      ensures Collect(ScissorsOf, draw(t, p).trace) == keys(p)
    {
      DrawCallScissors(ctx, t, p);
    }
    RunCollects(Visited(d), BeforeRender(r).res, draw, side, ScissorsOf, keys);
    var run := Loop(ctx, BeforeRender(r).res, d);
    CollectOne(ScissorsOf, Bind(r.tex));
    FrameEnvelope(ScissorsOf, r.tex, run.trace);
  }

  /** A successful frame performs the side effect of the frame's first unsupported
      command, if it has one, and no other: the loop as written ends there. */
  lemma RenderPassesSideEffects(ctx: Ctx, r: Resources, d: DrawData)
    ensures var o := Render(ctx, r, d);
      o.error.None? ==> Collect(HooksIn, o.trace) == HooksOf(Visited(d)) && |HooksOf(Visited(d))| <= 1
  {
    var draw := (s: Resources, p: DrawParams) => DrawCall(ctx, s, p);
    var side := (h: Hook) => Hooked(h);
    forall t: Resources, p: DrawParams | draw(t, p).error.None?
      ensures Collect(HooksIn, draw(t, p).trace) == []
    {
      DrawCallSelections(ctx, t, p);
    }
    RunPassesSideEffects(Visited(d), BeforeRender(r).res, draw, side, HooksIn);
    VisitedHooks(d);
    var run := Loop(ctx, BeforeRender(r).res, d);
    CollectOne(HooksIn, Bind(r.tex));
    FrameEnvelope(HooksIn, r.tex, run.trace);
  }

  /** The pipeline is unbound once if the frame succeeds and never if it fails. */
  lemma RenderUnbindsIffSuccess(ctx: Ctx, r: Resources, d: DrawData)
    ensures var o := Render(ctx, r, d);
      Collect(Unbinds, o.trace) == (if o.error.None? then [Unbind] else [])
  {
    var draw := (s: Resources, p: DrawParams) => DrawCall(ctx, s, p);
    var side := (h: Hook) => Hooked(h);
    forall t: Resources, p: DrawParams
      ensures Collect(Unbinds, draw(t, p).trace) == []
    {
      DrawCallSelections(ctx, t, p);
    }
    var pre := BeforeRender(r);
    var run := Loop(ctx, pre.res, d);
    RunIssuesNone(Visited(d), pre.res, draw, side, Unbinds);
    var tail: seq<Op> := if run.error.None? then [Unbind] else [];
    CollectOne(Unbinds, Bind(r.tex));
    CollectConcat(Unbinds, pre.ops, run.trace);
    CollectConcat(Unbinds, pre.ops + run.trace, tail);
    if run.error.None? {
      CollectOne(Unbinds, Unbind);
    }
  }

  /** The selection of a successful frame is that of its leading bind, then its
      loop, then the closing unbind. */
  lemma FrameEnvelope<X>(pick: Op -> seq<X>, tex: Option<nat>, run: seq<Op>)
    requires pick(Unbind) == []
    ensures Collect(pick, [Bind(tex)] + run + [Unbind]) == pick(Bind(tex)) + Collect(pick, run)
  {
    CollectOne(pick, Bind(tex));
    CollectOne(pick, Unbind);
    CollectConcat(pick, [Bind(tex)], run);
    CollectConcat(pick, [Bind(tex)] + run, [Unbind]);
  }
}
