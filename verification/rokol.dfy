/** The rokol (sokol_gfx) adapter: two stream buffers appended to once per draw
    list, a pipeline with the projection as a vertex-stage uniform, and one
    `apply_bindings` + `draw` per draw call. */
module Rokol {
  import opened Base
  import opened Geometry
  import opened Draw
  import opened DrawIter
  import opened Textures
  import opened Driver

  /** Quads the stream buffers are sized for. */
  const N_QUADS: nat := 8192

  /** Bytes per vertex. */
  const VERT_SIZE: nat := 20

  /** The fixed size of the default pass `before_render` begins. */
  const PASS_WIDTH: int := 1280
  const PASS_HEIGHT: int := 720

  datatype BufferKind = VertexBuffer | IndexBuffer

  /** `rg::Bindings` as far as the adapter touches it: the byte sizes the two
      stream buffers are created with, their binding offsets, and the image bound
      to the fragment stage. */
  datatype Bindings = Bindings(vbufBytes: nat, ibufBytes: nat, vertexBufferOffset: nat, indexBufferOffset: nat, image: nat)

  /** The sokol_gfx calls the adapter issues. */
  datatype Op =
    | BeginDefaultPass(width: int, height: int)
    | ApplyPipeline
    | AppendBuffer(kind: BufferKind, elems: nat)
    | SetTransform(o: Ortho)
    | ApplyBindings(binds: Bindings)
    | DrawElements(baseElement: nat, numElements: nat, numInstances: nat)
    | EndPass
    | Hooked(hook: Hook)

  /** `anyhow!("Bad texture id: ..")`. */
  datatype Error = BadTextureId(id: nat)

  /** The font atlas image, the registry of user textures, and the y-axis
      convention of `Rect::up` / `Rect::down`, which the shown `Rect` does not
      define. */
  datatype Ctx = Ctx(font: nat, registry: map<nat, nat>, up: UpDown)

  /** `create_bindings` followed by binding the font atlas in `new`. */
  function NewBindings(font: nat): (b: Bindings)
    ensures b.vbufBytes == 655360 && b.ibufBytes == 98304
    ensures b.vertexBufferOffset == 0 && b.indexBufferOffset == 0
    ensures b.image == font
  {
    Bindings(VERT_SIZE * N_QUADS * 4, 2 * N_QUADS * 6, 0, 0, font)
  }

  /** The stream buffers hold exactly `N_QUADS` quads of 16-bit-indexed geometry:
      four vertices and six indices per quad. */
  lemma NewBindingsHoldQuads(font: nat)
    ensures NewBindings(font).vbufBytes == N_QUADS * 4 * DRAW_VERT_SIZE
    ensures NewBindings(font).ibufBytes == N_QUADS * 6 * IndexSize(Idx16)
  {
  }

  datatype Staged = Staged(binds: Bindings, ops: seq<Op>)

  /** `before_render`: rewind both binding offsets, begin the pass, apply the
      pipeline. */
  function BeforeRender(b: Bindings): (r: Staged)
    ensures r.binds.vertexBufferOffset == 0 && r.binds.indexBufferOffset == 0
    ensures r.binds.vbufBytes == b.vbufBytes && r.binds.ibufBytes == b.ibufBytes && r.binds.image == b.image
    ensures |r.ops| == 2 && r.ops[0] == BeginDefaultPass(PASS_WIDTH, PASS_HEIGHT)
  {
    Staged(b.(vertexBufferOffset := 0, indexBufferOffset := 0), [BeginDefaultPass(PASS_WIDTH, PASS_HEIGHT), ApplyPipeline])
  }

  /** Rewinding twice is rewinding once. */
  lemma BeforeRenderIdempotent(b: Bindings)
    ensures BeforeRender(BeforeRender(b).binds) == BeforeRender(b)
  {
  }

  /** What the first draw call of a list issues before its texture is looked up:
      append both buffers, set the projection. */
  function Setup(ctx: Ctx, p: DrawParams): seq<Op> {
    if p.idxOffset == 0 then
      [AppendBuffer(VertexBuffer, |p.vtxBuffer|), AppendBuffer(IndexBuffer, |p.idxBuffer|),
       SetTransform(ProjectionOf(p.display, ctx.up))]
    else []
  }

  /** `rg::draw(idx_offset as u32, n_elems as u32, 1)`. */
  function DrawKey(p: DrawParams): seq<Op> {
    [DrawElements(AsU32(p.idxOffset), AsU32(p.nElems), 1)]
  }

  /** `ImGuiRokolGfx::draw`. The scissor call is commented out in the adapter, so
      none is issued. */
  function DrawCall(ctx: Ctx, b: Bindings, p: DrawParams): (r: Outcome<Bindings, Op, Error>)
    ensures r.error.Some? <==> Resolve(ctx.font, ctx.registry, p.texId).None?
    ensures r.error.Some? ==>
      (&& r.error.value == BadTextureId(p.texId)
       && r.state == b
       && forall i :: 0 <= i < |r.trace| ==> !r.trace[i].ApplyBindings? && !r.trace[i].DrawElements?)
    ensures r.error.None? ==>
      (&& Resolve(ctx.font, ctx.registry, p.texId) == Some(r.state.image)
       && |r.trace| >= 2
       && r.trace[|r.trace| - 2] == ApplyBindings(r.state)
       && r.trace[|r.trace| - 1] == DrawKey(p)[0])
    ensures r.state == b.(image := r.state.image)
  {
    var ops := Setup(ctx, p);
    match Resolve(ctx.font, ctx.registry, p.texId)
    case None => Outcome(b, ops, Some(BadTextureId(p.texId)))
    case Some(t) =>
      var b' := b.(image := t);
      Outcome(b', ops + [ApplyBindings(b')] + DrawKey(p), None)
  }

  /** A bound image or an issued draw: what a successful draw call ends with. */
  datatype Issue = BindImage(image: nat) | Draws(baseElement: nat, numElements: nat, numInstances: nat)

  function IssuesOf(o: Op): seq<Issue> {
    match o
    case ApplyBindings(b) => [BindImage(b.image)]
    case DrawElements(e, n, k) => [Draws(e, n, k)]
    case _ => []
  }

  /** For each draw call: the resolved image, then the draw. */
  function IssueKey(ctx: Ctx, p: DrawParams): seq<Issue> {
    match Resolve(ctx.font, ctx.registry, p.texId)
    case None => []
    case Some(t) => [BindImage(t), Draws(AsU32(p.idxOffset), AsU32(p.nElems), 1)]
  }

  function AppendsOf(o: Op): seq<Op> {
    if o.AppendBuffer? then [o] else []
  }

  /** The appends of a draw call: both buffers, for the first draw call of a list. */
  function AppendKey(p: DrawParams): seq<Op> {
    if p.idxOffset == 0 then [AppendBuffer(VertexBuffer, |p.vtxBuffer|), AppendBuffer(IndexBuffer, |p.idxBuffer|)] else []
  }

  function TransformsOf(o: Op): seq<Ortho> {
    if o.SetTransform? then [o.o] else []
  }

  function TransformKey(ctx: Ctx, p: DrawParams): seq<Ortho> {
    if p.idxOffset == 0 then [ProjectionOf(p.display, ctx.up)] else []
  }

  function HooksIn(o: Op): seq<Hook> {
    if o.Hooked? then [o.hook] else []
  }

  function PassEnds(o: Op): seq<Op> {
    if o.EndPass? then [o] else []
  }

  lemma SetupSelections(ctx: Ctx, p: DrawParams)
    ensures Collect(IssuesOf, Setup(ctx, p)) == []
    ensures Collect(AppendsOf, Setup(ctx, p)) == AppendKey(p)
    ensures Collect(TransformsOf, Setup(ctx, p)) == TransformKey(ctx, p)
    ensures Collect(HooksIn, Setup(ctx, p)) == []
    ensures Collect(PassEnds, Setup(ctx, p)) == []
  {
    if p.idxOffset == 0 {
      var s := Setup(ctx, p);
      CollectThree(IssuesOf, s[0], s[1], s[2]);
      CollectThree(AppendsOf, s[0], s[1], s[2]);
      CollectThree(TransformsOf, s[0], s[1], s[2]);
      CollectThree(HooksIn, s[0], s[1], s[2]);
      CollectThree(PassEnds, s[0], s[1], s[2]);
    }
  }

  /** The bind and draw that end a successful draw call. */
  lemma TailSelections(ctx: Ctx, b: Bindings, t: nat, p: DrawParams)
    requires Resolve(ctx.font, ctx.registry, p.texId) == Some(t)
    ensures var tail := [ApplyBindings(b.(image := t))] + DrawKey(p);
      && Collect(IssuesOf, tail) == IssueKey(ctx, p)
      && Collect(AppendsOf, tail) == [] && Collect(TransformsOf, tail) == []
      && Collect(HooksIn, tail) == [] && Collect(PassEnds, tail) == []
  {
    var x := ApplyBindings(b.(image := t));
    var y := DrawKey(p)[0];
    assert [x] + DrawKey(p) == [x] + [y];
    CollectOne(IssuesOf, x);
    CollectOne(IssuesOf, y);
    CollectConcat(IssuesOf, [x], [y]);
    CollectOne(AppendsOf, x);
    CollectOne(AppendsOf, y);
    CollectConcat(AppendsOf, [x], [y]);
    CollectOne(TransformsOf, x);
    CollectOne(TransformsOf, y);
    CollectConcat(TransformsOf, [x], [y]);
    CollectOne(HooksIn, x);
    CollectOne(HooksIn, y);
    CollectConcat(HooksIn, [x], [y]);
    CollectOne(PassEnds, x);
    CollectOne(PassEnds, y);
    CollectConcat(PassEnds, [x], [y]);
  }

  /** No draw call ends the pass, whether or not it fails. */
  lemma DrawCallEndsNoPass(ctx: Ctx, b: Bindings, p: DrawParams)
    ensures Collect(PassEnds, DrawCall(ctx, b, p).trace) == []
  {
    SetupSelections(ctx, p);
    match Resolve(ctx.font, ctx.registry, p.texId)
    case None =>
    case Some(t) =>
      var tail := [ApplyBindings(b.(image := t))] + DrawKey(p);
      TailSelections(ctx, b, t, p);
      assert DrawCall(ctx, b, p).trace == Setup(ctx, p) + tail;
      CollectConcat(PassEnds, Setup(ctx, p), tail);
  }

  /** What one successful draw call issues among the selected operations. */
  lemma DrawCallSelections(ctx: Ctx, b: Bindings, p: DrawParams)
    ensures var r := DrawCall(ctx, b, p);
      r.error.None? ==>
        (&& Collect(IssuesOf, r.trace) == IssueKey(ctx, p)
         && Collect(AppendsOf, r.trace) == AppendKey(p)
         && Collect(TransformsOf, r.trace) == TransformKey(ctx, p)
         && Collect(HooksIn, r.trace) == [])
  {
    var s := Setup(ctx, p);
    SetupSelections(ctx, p);
    match Resolve(ctx.font, ctx.registry, p.texId)
    case None =>
    case Some(t) =>
      var tail := [ApplyBindings(b.(image := t))] + DrawKey(p);
      TailSelections(ctx, b, t, p);
      assert DrawCall(ctx, b, p).trace == s + tail;
      CollectConcat(IssuesOf, s, tail);
      CollectConcat(AppendsOf, s, tail);
      CollectConcat(TransformsOf, s, tail);
      CollectConcat(HooksIn, s, tail);
  }

  /** The frame's loop: the draw calls and side effects in order. */
  function Loop(ctx: Ctx, b: Bindings, d: DrawData): Outcome<Bindings, Op, Error> {
    Run(Visited(d), b, (s: Bindings, p: DrawParams) => DrawCall(ctx, s, p), (h: Hook) => Hooked(h))
  }

  /** `ImGuiRokolGfx::render`: `before_render`, the draw calls in order up to the
      first error, and `after_render` (end the pass) only if none failed. */
  function Render(ctx: Ctx, b: Bindings, d: DrawData): (r: Outcome<Bindings, Op, Error>)
    ensures |r.trace| >= 2 && r.trace[..2] == [BeginDefaultPass(PASS_WIDTH, PASS_HEIGHT), ApplyPipeline]
    ensures r.error.None? ==> r.trace[|r.trace| - 1] == EndPass
  {
    var pre := BeforeRender(b);
    var run := Loop(ctx, pre.binds, d);
    Outcome(run.state, pre.ops + run.trace + (if run.error.None? then [EndPass] else []), run.error)
  }

  /** A frame fails exactly when one of the draw calls the loop reaches names a
      texture that is neither the font atlas nor registered; a bad draw call after
      the first unsupported command is never reached. On a frame of `Elements`
      commands only, that is any draw call of the frame. */
  lemma RenderFailsIff(ctx: Ctx, b: Bindings, d: DrawData)
    ensures Render(ctx, b, d).error.Some? <==>
      exists p :: p in VisitedParams(d) && p.texId != FONT_TEXTURE_ID && p.texId !in ctx.registry
    ensures ElementsOnly(d) ==> (Render(ctx, b, d).error.Some? <==>
      exists p :: p in Params(d) && p.texId != FONT_TEXTURE_ID && p.texId !in ctx.registry)
  {
    var draw := (s: Bindings, p: DrawParams) => DrawCall(ctx, s, p);
    var bad := (p: DrawParams) => p.texId != FONT_TEXTURE_ID && p.texId !in ctx.registry;
    forall t: Bindings, p: DrawParams
      ensures draw(t, p).error.Some? <==> bad(p)
    {
      ResolveFailsIff(ctx.font, ctx.registry, p.texId);
    }
    RunFailsIff(Visited(d), BeforeRender(b).binds, draw, (h: Hook) => Hooked(h), bad);
    if Render(ctx, b, d).error.Some? {
      var p :| p in Items(Visited(d)) && bad(p);
      assert p in VisitedParams(d) && p.texId != FONT_TEXTURE_ID && p.texId !in ctx.registry;
    }
    if exists p :: p in VisitedParams(d) && p.texId != FONT_TEXTURE_ID && p.texId !in ctx.registry {
      var p :| p in VisitedParams(d) && p.texId != FONT_TEXTURE_ID && p.texId !in ctx.registry;
      assert p in Items(Visited(d)) && bad(p);
    }
    if ElementsOnly(d) {
      ForLoopAsWrittenAgreesOnElementsOnly(d);
    }
  }

  /** The error a failed frame returns names the texture id of one of its draw
      calls, and that id does not resolve. */
  lemma RenderErrorNamesBadTexture(ctx: Ctx, b: Bindings, d: DrawData)
    ensures var r := Render(ctx, b, d);
      r.error.Some? ==> exists p :: (&& p in VisitedParams(d) && r.error.value == BadTextureId(p.texId)
                                     && p.texId != FONT_TEXTURE_ID && p.texId !in ctx.registry)
  {
    var draw := (s: Bindings, p: DrawParams) => DrawCall(ctx, s, p);
    var blame := (p: DrawParams, e: Error) => e == BadTextureId(p.texId) && p.texId != FONT_TEXTURE_ID && p.texId !in ctx.registry;
    forall t: Bindings, p: DrawParams | draw(t, p).error.Some?
      ensures blame(p, draw(t, p).error.value)
    {
      ResolveFailsIff(ctx.font, ctx.registry, p.texId);
    }
    RunErrorWitness(Visited(d), BeforeRender(b).binds, draw, (h: Hook) => Hooked(h), blame);
  }

  /** A successful frame binds each draw call's resolved image and then draws
      with base element `idx_offset`, `n_elems` elements and one instance: one
      such pair per draw call, in the frame's order. */
  lemma RenderBindsAndDrawsEveryCallInOrder(ctx: Ctx, b: Bindings, d: DrawData)
    ensures var r := Render(ctx, b, d);
      r.error.None? ==> Collect(IssuesOf, r.trace) == Gather((p: DrawParams) => IssueKey(ctx, p), VisitedParams(d))
  {
    var draw := (s: Bindings, p: DrawParams) => DrawCall(ctx, s, p);
    var side := (h: Hook) => Hooked(h);
    var keys := (p: DrawParams) => IssueKey(ctx, p);
    forall t: Bindings, p: DrawParams | draw(t, p).error.None?
      ensures Collect(IssuesOf, draw(t, p).trace) == keys(p)
    {
      DrawCallSelections(ctx, t, p);
    }
    RunCollects(Visited(d), BeforeRender(b).binds, draw, side, IssuesOf, keys);
    FrameEnvelope(IssuesOf, BeforeRender(b).ops, Loop(ctx, BeforeRender(b).binds, d).trace);
  }

  /** A successful frame appends both buffers once for each draw call with index
      offset 0, in order, and for no other. */
  lemma RenderAppendsOnlyAtListStart(ctx: Ctx, b: Bindings, d: DrawData)
    ensures var r := Render(ctx, b, d);
      r.error.None? ==> Collect(AppendsOf, r.trace) == Gather(AppendKey, VisitedParams(d))
  {
    var draw := (s: Bindings, p: DrawParams) => DrawCall(ctx, s, p);
    var side := (h: Hook) => Hooked(h);
    var keys := AppendKey;
    forall t: Bindings, p: DrawParams | draw(t, p).error.None?
      ensures Collect(AppendsOf, draw(t, p).trace) == keys(p)
    {
      DrawCallSelections(ctx, t, p);
    }
    RunCollects(Visited(d), BeforeRender(b).binds, draw, side, AppendsOf, keys);
    FrameEnvelope(AppendsOf, BeforeRender(b).ops, Loop(ctx, BeforeRender(b).binds, d).trace);
  }

  /** A successful frame sets the projection uniform once for each draw call with
      index offset 0, in order, and for no other. */
  lemma RenderTransformOnlyAtListStart(ctx: Ctx, b: Bindings, d: DrawData)
    ensures var r := Render(ctx, b, d);
      r.error.None? ==> Collect(TransformsOf, r.trace) == Gather((p: DrawParams) => TransformKey(ctx, p), VisitedParams(d))
  {
    var draw := (s: Bindings, p: DrawParams) => DrawCall(ctx, s, p);
    var side := (h: Hook) => Hooked(h);
    var keys := (p: DrawParams) => TransformKey(ctx, p);
    forall t: Bindings, p: DrawParams | draw(t, p).error.None?
      ensures Collect(TransformsOf, draw(t, p).trace) == keys(p)
    {
      DrawCallSelections(ctx, t, p);
    }
    RunCollects(Visited(d), BeforeRender(b).binds, draw, side, TransformsOf, keys);
    FrameEnvelope(TransformsOf, BeforeRender(b).ops, Loop(ctx, BeforeRender(b).binds, d).trace);
  }

  /** A successful frame performs the side effect of the frame's first unsupported
      command, if it has one, and no other: the loop as written ends there. */
  lemma RenderPassesSideEffects(ctx: Ctx, b: Bindings, d: DrawData)
    ensures var r := Render(ctx, b, d);
      r.error.None? ==> Collect(HooksIn, r.trace) == HooksOf(Visited(d)) && |HooksOf(Visited(d))| <= 1
  {
    var draw := (s: Bindings, p: DrawParams) => DrawCall(ctx, s, p);
    var side := (h: Hook) => Hooked(h);
    forall t: Bindings, p: DrawParams | draw(t, p).error.None?
      ensures Collect(HooksIn, draw(t, p).trace) == []
    {
      DrawCallSelections(ctx, t, p);
    }
    RunPassesSideEffects(Visited(d), BeforeRender(b).binds, draw, side, HooksIn);
    VisitedHooks(d);
    FrameEnvelope(HooksIn, BeforeRender(b).ops, Loop(ctx, BeforeRender(b).binds, d).trace);
  }

  /** The pass is ended once if the frame succeeds and never if it fails. */
  lemma RenderEndsPassIffSuccess(ctx: Ctx, b: Bindings, d: DrawData)
    ensures var r := Render(ctx, b, d);
      Collect(PassEnds, r.trace) == (if r.error.None? then [EndPass] else [])
  {
    var draw := (s: Bindings, p: DrawParams) => DrawCall(ctx, s, p);
    var side := (h: Hook) => Hooked(h);
    forall t: Bindings, p: DrawParams
      ensures Collect(PassEnds, draw(t, p).trace) == []
    {
      DrawCallEndsNoPass(ctx, t, p);
    }
    var pre := BeforeRender(b);
    var run := Loop(ctx, pre.binds, d);
    RunIssuesNone(Visited(d), pre.binds, draw, side, PassEnds);
    var tail: seq<Op> := if run.error.None? then [EndPass] else [];
    CollectConcat(PassEnds, pre.ops, run.trace);
    CollectConcat(PassEnds, pre.ops + run.trace, tail);
    CollectOne(PassEnds, pre.ops[0]);
    CollectOne(PassEnds, pre.ops[1]);
    CollectConcat(PassEnds, [pre.ops[0]], [pre.ops[1]]);
    assert [pre.ops[0]] + [pre.ops[1]] == pre.ops;
    if run.error.None? {
      CollectOne(PassEnds, EndPass);
    }
  }

  /** Draw calls only rebind the image, so the bindings a frame leaves, failed
      or not, have both buffer offsets at 0 and the buffer sizes they began with. */
  lemma RenderKeepsOffsetsZero(ctx: Ctx, b: Bindings, d: DrawData)
    ensures var r := Render(ctx, b, d);
      r.state.vertexBufferOffset == 0 && r.state.indexBufferOffset == 0
      && r.state.vbufBytes == b.vbufBytes && r.state.ibufBytes == b.ibufBytes
  {
    var draw := (s: Bindings, p: DrawParams) => DrawCall(ctx, s, p);
    var inv := (s: Bindings) => s.vertexBufferOffset == 0 && s.indexBufferOffset == 0
      && s.vbufBytes == b.vbufBytes && s.ibufBytes == b.ibufBytes;
    RunPreserves(Visited(d), BeforeRender(b).binds, draw, (h: Hook) => Hooked(h), inv, (p: DrawParams) => true);
  }

  /** The selections of `before_render`'s two operations are empty for every
      selector above, so a frame's selection is its loop's. */
  lemma FrameEnvelope<X>(pick: Op -> seq<X>, pre: seq<Op>, run: seq<Op>)
    requires pre == [BeginDefaultPass(PASS_WIDTH, PASS_HEIGHT), ApplyPipeline]
    requires pick(pre[0]) == [] && pick(pre[1]) == [] && pick(EndPass) == []
    ensures Collect(pick, pre + run + [EndPass]) == Collect(pick, run)
  {
    CollectOne(pick, pre[0]);
    CollectOne(pick, pre[1]);
    CollectOne(pick, EndPass);
    CollectConcat(pick, [pre[0]], [pre[1]]);
    assert [pre[0]] + [pre[1]] == pre;
    CollectConcat(pick, pre, run);
    CollectConcat(pick, pre + run, [EndPass]);
  }
}
