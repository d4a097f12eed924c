# imgui-rs-backends: the draw-list compiler and its three renderer adapters

This project is a Dafny model of the renderer side of `imgui-rs-backends`. It
covers the backend-independent draw-list compiler of `src/helper.rs`, and the
logic that each adapter (FNA3D, rokol/sokol_gfx, glow/OpenGL) builds on top of
it. The model proves properties of these parts.

- **`DrawIter`** (`drawiter.dfy`): `DrawParamsIterator` for one frame. This covers
  - the framebuffer size and the clip-rectangle transform;
  - culling, and the display and scissor rectangles;
  - the `next()` state machine, step by step.

  `Steps` is the reference sequence of a frame: every command of every list, in
  order. Each command yields its draw call (`Item`) or the side effect of an
  unsupported command (`Side`). The side effect is the warning of
  `ResetRenderState`, or the invocation of a `RawCallback`. `ForLoop(d, policy)`
  is what a `for` loop over the iterator sees. `EndIteration` is the code as
  written; `SkipCommand` is the evidently intended behaviour (see Findings).
- **`Geometry`**: `Rect`, `width`/`height`, and `ortho_mat_gl` over exact
  rationals. The projection that the adapters request is also here.
- **`Textures`**: texture resolution, where the sentinel `usize::MAX` stands for
  the font atlas and any other id is a registry lookup.
- **`Driver`**: the `render` loop that the adapters share. It runs the steps it is
  given in order, lets side effects through, and returns at the first error of
  `draw`. Each adapter gives it `Visited(d)`, what its `for` loop over the
  iterator sees as written: the steps up to and including the first unsupported
  command.
  This module states generic facts about the loop: which errors are possible,
  which invariants hold, which operations are issued in which order, and what
  accumulates.
- **`Fna3d`**: the grow-on-demand vertex and index buffers; `draw`, covering
  upload gating, projection, scissor, texture, and the vertex and triangle counts;
  and `render`.
- **`Rokol`**: the stream-buffer bindings, `before_render`/`after_render`, `draw`,
  and `render`.
- **`GlowRes`** and **`Glow`**: the append-only watermark buffers, `Resources`,
  the indexed draw, `draw`, and `render`.

GPU calls are values of each adapter's `Op` type. An adapter call returns an
`Outcome`: the adapter state afterwards, the trace of operations it issued, and
an optional error. The adapters model the code as written: FNA3D sets the
scissor through `width()`/`height()`, and glow's buffers append with the
wrapping `i32` arithmetic. The evidently intended versions of these and of the
iteration are defined beside them, with their properties proved, but the
adapters do not use them (see Findings). Floating-point coordinates are `real`. Integer casts and
`i32` arithmetic wrap as in a release build on a 64-bit target (`Base`).

## Model

| member | source | states |
|---|---|---|
| Base.AsU32 | src/renderer/fna3d.rs:232-236 | `as u32` keeps the value when it fits in 32 bits; otherwise it yields the unique value below 2^32 congruent to it |
| Base.WrapI32 | src/renderer/glow/res.rs:84 | `as i32` and wrapping `i32` arithmetic give a value in i32 range, equal to the input when that is in range, congruent modulo 2^32 otherwise |
| Base.TruncToI32 | src/renderer/glow.rs:159-164 | a float cast to `i32` truncates toward zero (never past the value, and within 1 of it in range) and saturates at the i32 bounds |
| Geometry.Width | src/helper.rs:152-155 | a rectangle's width is never negative and is the distance between its left and right edges in one direction or the other |
| Geometry.Height | src/helper.rs:157-160 | a rectangle's height is never negative and is the distance between its top and bottom edges in one direction or the other |
| Geometry.OrthoOnlyScalesAndShifts | src/helper.rs:83-103 | every entry of the orthographic matrix off the diagonal and off the translation column is zero, and the last entry is 1 |
| Geometry.OrthoMapsCornersToUnitSquare | src/helper.rs:61-104 | the projection maps (left, bottom) to (-1, -1) and (right, top) to (+1, +1), with w = 1 |
| Geometry.OrthoSwapNegatesY | src/helper.rs:68-74 | swapping the bottom and top arguments, as documented for a y axis that goes down, negates entries 5 and 13 and changes nothing else |
| Geometry.ProjectionVerticalConvention | src/renderer/rokol.rs:309-319 | under either reading of `up()`/`down()`, the display corner at (left, bottom field) goes to clip-space (-1, +1) or (-1, -1): the y direction the adapters get depends on that reading |
| Textures.Resolve | src/renderer/rokol.rs:257-266 | the sentinel id resolves to the font texture; any other id resolves exactly when it is registered, and then to the registered texture |
| Textures.SentinelIgnoresRegistry | src/renderer/fna3d.rs:214-221 | the font texture is returned for the sentinel whatever the registry holds, even an entry under that key |
| Textures.ResolveFailsIff | src/renderer/glow.rs:85-94 | resolution fails exactly for a non-sentinel id missing from the registry |
| Textures.RegisterIsLocal | src/renderer/rokol.rs:261-265 | registering a texture changes only the resolution of its own id, which then resolves to it unless it is the sentinel |
| Driver.RunStopsAtFirstError | src/renderer/fna3d.rs:159-161 | once a prefix of the frame fails, the rest of the frame has no effect: the outcome is the prefix's |
| Driver.RunFailsIff | src/renderer/rokol.rs:278-280 | if a draw fails depending only on its parameters, the loop fails exactly when some draw call of the frame is bad |
| Driver.RunErrorWitness | src/renderer/glow.rs:167-169 | the error that ends the loop is one that some draw call of the frame would report |
| Driver.RunPreserves | src/renderer/fna3d.rs:159-161 | a state invariant that every draw of an admissible draw call keeps holds after a loop over admissible draw calls, failed or not |
| Driver.RunCollects | src/renderer/fna3d.rs:158-162 | a successful loop issues, among any class of operations, exactly the concatenation of what each draw call issues in that class, in the frame's order |
| Driver.RunIssuesNone | src/renderer/rokol.rs:278-281 | an operation that neither a draw nor a side effect issues never appears in the loop's trace |
| Driver.RunPassesSideEffects | src/helper.rs:314-322 | a successful loop performs the side effects of the unsupported commands, in the frame's order |
| Driver.RunAccumulates | src/renderer/glow.rs:134-137 | a quantity that each successful draw of an admissible draw call raises by a per-call amount, from states satisfying an invariant it keeps, is raised by the total of these amounts over a successful loop of admissible draw calls |
| DrawIter.Start | src/helper.rs:199-245 | the iterator the constructor builds is well formed: the current command iterator belongs to the last list handed out |
| DrawIter.Advance | src/helper.rs:260-323 | one turn of the loop in `next()` keeps the iterator well formed, never adds unread commands, returns an item only after consuming a command, and when it loops it fetches a further list or consumes a command |
| DrawIter.Next | src/helper.rs:250-325 | `next()` terminates, keeps the iterator well formed, and returns an item only after consuming at least one command |
| DrawIter.RestAtStart | src/helper.rs:230-233 | before the first `next()` the commands left to read make up the whole reference sequence |
| DrawIter.AdvanceFollowsReference | src/helper.rs:260-323 | one turn of the loop removes exactly its side effect and its item from the front of what is left of the reference sequence; under the code as written, a side effect ends the call with no item |
| DrawIter.NextFollowsReference | src/helper.rs:250-325 | each `next()` call produces the next stretch of the reference sequence; with unsupported commands skipped it returns `None` only at the end of the frame |
| DrawIter.DrainSkipIsRest | src/helper.rs:248-325 | with unsupported commands skipped, iterating from any state yields exactly what is left of the reference sequence |
| DrawIter.DrainEndTruncatesRest | src/helper.rs:273-323 | as written, iterating from any state yields what is left of the reference sequence up to and including its first side effect, and nothing after it |
| DrawIter.ForLoopSkipMatchesSteps | src/helper.rs:248-325 | with unsupported commands skipped, a `for` loop over the iterator sees exactly the reference sequence of the frame |
| DrawIter.ForLoopAsWrittenTruncates | src/helper.rs:314-322 | as written, a `for` loop sees the reference sequence up to and including the side effect of the first `ResetRenderState`/`RawCallback`: cut right after index `j` when that command's step is at `j`, whole when there is none |
| DrawIter.UpToFirstSideCut | src/helper.rs:314-322 | the cut after the first side effect is a prefix; it keeps a sequence without side effects whole, and it ends a sequence whose first side effect is at `j` right after `j` |
| DrawIter.ForLoopAsWrittenAgreesOnElementsOnly | src/helper.rs:273-313 | on frames with only `Elements` commands, the code as written yields the full reference sequence |
| DrawIter.ElementsOnlyHasNoSides | src/helper.rs:314-322 | a frame with only `Elements` commands has no side effects |
| DrawIter.CallbackThenDrawReference | src/helper.rs:318-322 | a list made of a raw callback and a visible draw should run the callback and then issue the draw |
| DrawIter.CallbackThenDrawAsWritten | src/helper.rs:318-322 | as written, the loop over such a list runs the callback and ends |
| DrawIter.ForLoopAsWrittenDropsCommandAfterCallback | src/helper.rs:273-323 | as written, the visible draw after a raw callback is never issued, although the frame has that draw call |
| DrawIter.DegenerateYieldsNothing | src/helper.rs:217-228 | a framebuffer of non-positive width or height yields no step, under either policy |
| DrawIter.ClipTransformIdentity | src/helper.rs:278-283 | with display offset (0, 0) and scale (1, 1) the clip transform is the identity |
| DrawIter.CullingExamples | src/helper.rs:285-291 | on an 800x600 framebuffer the clip rectangle [900, 0, 950, 50] is culled and [0, 0, 800, 600] is kept |
| DrawIter.ScissorMatchesTransformedClip | src/helper.rs:295-301 | the scissor holds the transformed clip rectangle's width and height; with no display offset its corner is the rectangle's lower-left corner in a y-up framebuffer |
| DrawIter.StepsMembership | src/helper.rs:258-271 | a step belongs to a frame exactly when the frame is visible and some command of some list produces it |
| DrawIter.DrawCallIff | src/helper.rs:303-312 | a draw call is produced exactly for each visible `Elements` command whose transformed clip meets the framebuffer; it carries that command's offsets, count and texture id, and its list's buffers |
| DrawIter.CallbackIff | src/helper.rs:318-322 | a callback runs with list index `i` and user data `u` exactly when list `i` of a visible frame holds `RawCallback(u)` |
| DrawIter.DrawCallsShareDisplay | src/helper.rs:208-213 | every draw call of a frame carries the display rectangle (left = pos.x, right = pos.x + size.x, top = pos.y + size.y, bottom = pos.y), which is non-degenerate |
| DrawIter.ParamsOfJoinedLists | src/helper.rs:258-271 | the draw calls of lists `a + b` are those of `a` followed by those of `b`: list order |
| DrawIter.ParamsOfJoinedCommands | src/helper.rs:261-263 | the draw calls of a list with commands `a + b` are those of `a` followed by those of `b`: command order |
| DrawIter.VisitedParamsPrefix | src/renderer/fna3d.rs:159-161 | the renderers' `for` loops hand `draw` a prefix of the frame's draw calls: those before the first unsupported command, or all of them when there is none |
| DrawIter.VisitedHooks | src/helper.rs:314-322 | those loops perform at most one side effect: that of the frame's first unsupported command, and none when there is no such command |
| Fna3d.NewBatch | src/renderer/fna3d.rs:269-282 | the first buffers have 20·4·8192 = 655,360 vertex bytes and 2·6·8192 = 98,304 index bytes |
| Fna3d.Upload | src/renderer/fna3d.rs:347-362 | an upload reallocates exactly when the required length `SIZE·(len + size_of::<T>())` exceeds the capacity, to exactly that length; the capacity afterwards is the larger of the two; the whole slice is always written |
| Fna3d.CapacityIsRunningMax | src/renderer/fna3d.rs:350-359 | over any sequence of uploads the capacity is the running maximum of the first capacity and the required lengths, so it never shrinks and covers every upload made |
| Fna3d.SecondUploadKeepsBuffer | src/renderer/fna3d.rs:385-396 | uploading the same length again does not reallocate |
| Fna3d.UploadedDataFits | src/renderer/fna3d.rs:382-397 | the bytes written fit in the buffer after the upload, for vertices and for 16-bit indices |
| Fna3d.SetBuffers | src/renderer/fna3d.rs:284-292 | each buffer's capacity becomes the larger of its old capacity and its own required length |
| Fna3d.UploadSelections | src/renderer/fna3d.rs:347-362 | an upload writes the whole slice once into its buffer, and reallocates first, to the required length cast to `u32`, exactly when that length exceeds the capacity |
| Fna3d.SetBuffersSelections | src/renderer/fna3d.rs:284-292 | `set_buffers` writes the vertex slice, then the index slice, each with its own length; each buffer is reallocated exactly when it is too small, vertex buffer first |
| Fna3d.Projection | src/renderer/fna3d.rs:182-193 | the projection passes display top as the bottom argument and display bottom as the top one (y down) |
| Fna3d.ScissorIsTransformedClip | src/renderer/fna3d.rs:206-211 | the corrected member of the second Findings row: with no display offset, the corrected scissor box `Fna3d.Scissor` is the transformed clip rectangle's lower-left corner in a y-up framebuffer, with its width and height |
| Fna3d.ScissorAsWrittenLosesExtents | src/renderer/fna3d.rs:206-211 | as written, the clip [100, 0, 200, 50] on 800x600 gets a 0x500 scissor instead of 100x50 |
| Fna3d.QuadCounts | src/renderer/fna3d.rs:227-228 | for `q` quads (6q indices) the draw covers 4q vertices and 2q triangles |
| Fna3d.VertexCountBounds | src/renderer/fna3d.rs:227 | the vertex count is exactly 2n/3 below 2^31 indices, and the wrapping `u32` product makes it 0 at 2^31 |
| Fna3d.DrawCall | src/renderer/fna3d.rs:171-242 | a draw fails exactly when its texture does not resolve, with `BadTexture(id)`, after setting the scissor as written (extents through `width()`/`height()`); on success it ends with that scissor, `prepare_draw` with the resolved texture and the `u32` vertex offset, and the indexed draw; later draw calls of a list leave the buffers alone; capacities never shrink |
| Fna3d.SetupSelectsProjection | src/renderer/fna3d.rs:176-202 | a draw call sets the projection once if its index offset is 0, and not otherwise |
| Fna3d.SetupSelectsNoDraws | src/renderer/fna3d.rs:176-202 | uploading and setting the projection issue no draw and no side effect |
| Fna3d.TailSelections | src/renderer/fna3d.rs:204-239 | the scissor as written, texture preparation and draw issue one indexed draw, that one scissor, `prepare_draw` with the given texture, and no upload, projection or side effect |
| Fna3d.SetupSelectsUploads | src/renderer/fna3d.rs:176-202 | the first draw call of a list writes its vertex and index slices, and a later one writes nothing; neither sets a scissor or prepares a texture before the scissor |
| Fna3d.ResolvedSelections | src/renderer/fna3d.rs:213-239 | after the scissor, a draw call prepares the texture its id resolves to and then draws, and issues nothing else; an id that does not resolve issues nothing |
| Fna3d.DrawCallSelections | src/renderer/fna3d.rs:171-242 | a successful draw issues its one indexed draw, and a projection only when its index offset is 0 |
| Fna3d.DrawCallUploadsAndPrepares | src/renderer/fna3d.rs:171-242 | failed or not, a draw call writes the list's vertex and index slices exactly when its index offset is 0, sets exactly one scissor, the rectangle as written, and prepares exactly the texture its id resolves to, or none |
| Fna3d.Render | src/renderer/fna3d.rs:153-169 | `render` first sets the non-premultiplied blend state, then runs the loop over the iterator as written |
| Fna3d.RenderFailsIff | src/renderer/fna3d.rs:158-161 | a frame fails exactly when one of the draw calls the loop reaches (those before the first unsupported command) names a texture that is neither the sentinel nor registered; on a frame of `Elements` commands only, exactly when any of its draw calls does |
| Fna3d.RenderErrorNamesBadTexture | src/renderer/fna3d.rs:214-221 | the error of a failed frame names the texture id of one of the draw calls the loop reached, and that id does not resolve |
| Fna3d.RenderNeverShrinksBuffers | src/renderer/fna3d.rs:351-359 | a frame, failed or not, never shrinks either buffer |
| Fna3d.RenderDrawsEveryCallInOrder | src/renderer/fna3d.rs:159-161 | a successful frame issues one indexed draw per draw call the loop reaches, in order, with that call's offsets and counts |
| Fna3d.RenderUploadsOnlyAtListStart | src/renderer/fna3d.rs:176-179 | a successful frame writes the vertex and index slices once for each reached draw call with index offset 0, in order, and for no other |
| Fna3d.RenderScissorsEveryCall | src/renderer/fna3d.rs:205-211 | a successful frame sets one scissor per reached draw call, in order, each that call's rectangle as written |
| Fna3d.RenderPreparesResolvedTexture | src/renderer/fna3d.rs:213-224 | a successful frame hands `prepare_draw` the texture each reached draw call's id resolves to, one per call, in order |
| Fna3d.RenderProjectionOnlyAtListStart | src/renderer/fna3d.rs:176-193 | a successful frame sets the projection once for each draw call the loop reaches with index offset 0, in order, and for no other |
| Fna3d.RenderPassesSideEffects | src/renderer/fna3d.rs:159-161 | a successful frame performs the side effect of the first unsupported command, if the frame has one, and no other |
| Fna3d.RenderStopsAtFirstError | src/renderer/fna3d.rs:160 | once the steps the loop visits fail up to some point, the frame's outcome is theirs and nothing after them is issued |
| Fna3d.RenderEndsAtCallback | src/renderer/fna3d.rs:158-161 | a list of a raw callback and a visible draw runs the callback and returns `Ok` with the buffers untouched, never resolving the draw's texture, even an unregistered one |
| Rokol.NewBindings | src/renderer/rokol.rs:169-188 | the stream buffers are created with 655,360 and 98,304 bytes at offset 0, and the font atlas is the bound image |
| Rokol.NewBindingsHoldQuads | src/renderer/rokol.rs:173-185 | the buffers hold exactly 8192 quads of four vertices and six 16-bit indices |
| Rokol.BeforeRender | src/renderer/rokol.rs:286-292 | `before_render` rewinds both buffer offsets and changes nothing else, then begins the 1280x720 pass and applies the pipeline |
| Rokol.BeforeRenderIdempotent | src/renderer/rokol.rs:287-288 | rewinding twice is rewinding once |
| Rokol.DrawCall | src/renderer/rokol.rs:298-349 | a draw fails exactly when its texture does not resolve, with the bindings unchanged and no bindings applied or draw issued; on success it binds the resolved image and ends with apply-bindings and draw; only the image changes |
| Rokol.SetupSelections | src/renderer/rokol.rs:303-328 | a draw call appends both buffers and sets the projection uniform only when its index offset is 0 |
| Rokol.TailSelections | src/renderer/rokol.rs:343-347 | the end of a successful draw binds the resolved image, then draws from element `idx_offset` with `n_elems` elements and one instance |
| Rokol.DrawCallEndsNoPass | src/renderer/rokol.rs:298-349 | no draw call ends the pass, whether or not it fails |
| Rokol.DrawCallSelections | src/renderer/rokol.rs:298-349 | a successful draw issues its bind-and-draw pair, its appends and its projection as given by its index offset, and no side effect |
| Rokol.Render | src/renderer/rokol.rs:272-282 | a frame begins the pass and applies the pipeline first, then runs the loop over the iterator as written; a successful frame ends the pass last |
| Rokol.RenderFailsIff | src/renderer/rokol.rs:340-342 | a frame fails exactly when one of the draw calls the loop reaches (those before the first unsupported command) names a texture that is neither the sentinel nor registered; on a frame of `Elements` commands only, exactly when any of its draw calls does |
| Rokol.RenderErrorNamesBadTexture | src/renderer/rokol.rs:340-342 | the error of a failed frame names the texture id of one of the draw calls the loop reached, and that id does not resolve |
| Rokol.RenderBindsAndDrawsEveryCallInOrder | src/renderer/rokol.rs:343-347 | a successful frame binds each reached draw call's resolved image and draws it, one pair per draw call the loop reaches, in order |
| Rokol.RenderAppendsOnlyAtListStart | src/renderer/rokol.rs:303-306 | a successful frame appends both buffers once for each reached draw call with index offset 0, in order, and for no other |
| Rokol.RenderTransformOnlyAtListStart | src/renderer/rokol.rs:308-327 | a successful frame sets the projection uniform once for each reached draw call with index offset 0, in order, and for no other |
| Rokol.RenderPassesSideEffects | src/renderer/rokol.rs:278-280 | a successful frame performs the side effect of the first unsupported command, if the frame has one, and no other |
| Rokol.RenderEndsPassIffSuccess | src/renderer/rokol.rs:277-281 | the pass is ended exactly once if the frame succeeds and never if it fails |
| Rokol.RenderKeepsOffsetsZero | src/renderer/rokol.rs:287-288 | the bindings a frame leaves, failed or not, have both offsets at 0 and their original buffer sizes |
| GlowRes.NewBuffer | src/renderer/glow/res.rs:62-76 | a new buffer has watermark 0 and capacity `size_of::<T>()·len`; creation fails exactly when that is not below `i32::MAX` |
| GlowRes.AppendAsWritten | src/renderer/glow/res.rs:82-92 | as written, a successful append writes the slice at the old watermark and keeps the capacity; the new watermark lies between `i32::MIN` and the capacity, and differs from the true sum by a multiple of 2^32, so it may be negative |
| GlowRes.Append | src/renderer/glow/res.rs:82-92 | the evidently intended append (corrected member of the third Findings row): an append succeeds exactly when the new watermark fits the capacity; it writes at the old watermark, raises it by the slice's byte length, and keeps `0 <= len <= capacity` |
| GlowRes.AppendAsWrittenAgreesInRange | src/renderer/glow/res.rs:82-92 | while the new watermark fits in an `i32`, the code as written behaves as intended |
| GlowRes.AppendAsWrittenFailsOnlyOnOverflow | src/renderer/glow/res.rs:82-92 | on a buffer within its capacity, the append as written never fails for a slice that fits: the wrap only lets too-large appends through |
| GlowRes.AppendAsWrittenWrapsNegative | src/renderer/glow/res.rs:83-85 | as written, 2^30 16-bit indices pass the capacity check and leave the watermark at `i32::MIN` |
| GlowRes.AppendsAreContiguous | src/renderer/glow/res.rs:82-92 | two appends write back to back: the second starts where the first ended, and the watermark is the total |
| GlowRes.ResetOffset | src/renderer/glow/res.rs:78-80 | a reset sets the watermark to 0, keeps the capacity, and keeps the invariant |
| GlowRes.ResetFreesCapacity | src/renderer/glow/res.rs:78-92 | with the intended append of the third Findings row: after a reset, an append succeeds exactly when it fits in the whole capacity, and writes at offset 0 |
| GlowRes.NewResources | src/renderer/glow/res.rs:112-146 | the buffers start empty with capacities `size_of²·4·N_QUADS` and `size_of²·6·N_QUADS` (the size is applied twice), and no texture is selected |
| GlowRes.NewResourcesCapacities | src/renderer/glow/res.rs:126-136 | these capacities are 3,276,800 vertex bytes and 49,152 (16-bit) or 196,608 (32-bit) index bytes |
| GlowRes.ResetBufOffsets | src/renderer/glow/res.rs:157-160 | both watermarks go to 0; capacities and texture are unchanged |
| GlowRes.SetTexture | src/renderer/glow/res.rs:162-164 | selects the texture and leaves both buffers alone |
| GlowRes.DrawOp | src/renderer/glow/res.rs:215-229 | the index type is `UNSIGNED_SHORT` exactly for 16-bit indices and `UNSIGNED_INT` exactly for 32-bit ones |
| GlowRes.DrawOpOffset | src/renderer/glow/res.rs:226 | the draw reads from byte `idx_offset·size_of::<DrawIdx>()` while that fits in an `i32`, and passes the count and base vertex through |
| Glow.New | src/renderer/glow.rs:43-65 | construction yields empty buffers within capacity with the font atlas selected |
| Glow.BeforeRender | src/renderer/glow.rs:111-120 | `before_render` rewinds both watermarks, keeping capacities, texture and the invariant, and then binds with the selected texture |
| Glow.FirstFrameBindsFont | src/renderer/glow.rs:56-57 | the first frame binds the font atlas |
| Glow.AppendsAsWritten | src/renderer/glow/res.rs:82-92 | on buffers within capacity, the two appends as written fail only when the geometry does not fit, and equal the intended appends while neither wraps |
| Glow.Upload | src/renderer/glow.rs:134-155 | with the appends as written: a failure is an overflow at index offset 0 and, on buffers within capacity, means the geometry does not fit; while neither append wraps, the upload fails exactly when the geometry does not fit, otherwise raises each watermark by exactly its bytes and keeps the invariant; capacities never change |
| Glow.GlowScissorIsTransformedClip | src/renderer/glow.rs:157-164 | with `up()` the top edge and no display offset, the scissor box is the transformed clip's lower-left corner with its width and height |
| Glow.DrawCall | src/renderer/glow.rs:128-185 | while neither append wraps, a draw fails exactly when its geometry does not fit or its texture does not resolve; the error says which, and an overflow on buffers within capacity always means no fit; a failed draw issues no draw; after a bad texture id the last operation is the scissor; on success the resolved texture is selected and the trace ends with the scissor through `left()`, `up()`, `right()`, `down()`, then bind, then draw; capacities never change |
| Glow.UploadSelectsNoBinds | src/renderer/glow.rs:134-155 | uploading issues no bind, draw, side effect or unbind |
| Glow.UploadSelectsWrites | src/renderer/glow.rs:134-155 | a successful upload writes the list's vertex and index bytes and sets the projection, only for index offset 0 |
| Glow.TailSelections | src/renderer/glow.rs:157-181 | after the scissor, a successful draw binds with its texture and draws, and writes nothing |
| Glow.BindDrawSelections | src/renderer/glow.rs:166-181 | a resolved texture gives exactly its bind and draw; nothing is written, no uniform, side effect, unbind or scissor issued |
| Glow.AfterUploadSelections | src/renderer/glow.rs:157-184 | after an upload, a draw call adds one scissor when the upload succeeded and none otherwise, its bind and draw on success, and no write, uniform, side effect or unbind |
| Glow.DrawCallScissors | src/renderer/glow.rs:157-164 | a draw call whose append fails sets no scissor; a successful one, or one failing on its texture, sets exactly one, through `left()`, `up()`, `right()`, `down()` |
| Glow.DrawCallSelections | src/renderer/glow.rs:128-185 | a draw never unbinds; a successful one issues its bind and draw, its writes and its projection as given by its index offset, and no side effect |
| Glow.Render | src/renderer/glow.rs:101-126 | a frame first binds with the selected texture, then runs the loop over the iterator as written; a successful frame unbinds last |
| Glow.RenderErrorBlame | src/renderer/glow.rs:167-169 | a bad-texture error names the unresolvable id of one of the draw calls the loop reached; an overflow happens at a reached draw call with index offset 0 |
| Glow.RenderKeepsBuffersValid | src/renderer/glow/res.rs:82-92 | every frame whose lists' geometry cannot make an append wrap keeps both watermarks within their capacities and leaves the capacities unchanged |
| Glow.RenderWatermarks | src/renderer/glow.rs:134-137 | after such a successful frame each watermark is the byte total of the geometry appended by the reached draw calls with index offset 0 |
| Glow.RenderBindsBeforeEveryDraw | src/renderer/glow.rs:170-181 | a successful frame binds with the selected texture, then for each draw call the loop reaches, in order, binds with its resolved texture and draws |
| Glow.RenderAppendsOnlyAtListStart | src/renderer/glow.rs:134-137 | a successful frame writes both buffers once for each reached draw call with index offset 0, in order, and for no other |
| Glow.RenderUniformsOnlyAtListStart | src/renderer/glow.rs:139-154 | a successful frame sets the projection uniform once for each reached draw call with index offset 0, in order, and for no other |
| Glow.RenderScissorsEveryCall | src/renderer/glow.rs:157-164 | a successful frame sets one scissor per reached draw call, in order, each through that call's `up()`/`down()` |
| Glow.RenderPassesSideEffects | src/renderer/glow.rs:101-107 | a successful frame performs the side effect of the first unsupported command, if the frame has one, and no other |
| Glow.RenderUnbindsIffSuccess | src/renderer/glow.rs:122-126 | the pipeline is unbound exactly once if the frame succeeds and never if it fails |

## Left out

- GPU and FFI calls are operations in a trace. This covers FNA3D, sokol_gfx and OpenGL, including the effect, sampler and vertex-binding details inside `prepare_draw` and `bind`. What the GPU does with them is not modelled.
- Shader and pipeline creation, vertex attributes, texture creation (`src/renderer/glow/tex.rs`), `Drop`/dispose, `QuickStart`, `src/lib.rs` and the examples are left out. They are configuration or FFI.
- Logging (`log::warn!`, `log::trace!`, the failed `set_param` warning) is not modelled. The warning of `ResetRenderState` is kept as a side-effect step.
- A raw callback is opaque. The model records that it was called, with its list index and user data.
- f32/f64 rounding is not modelled; coordinates and matrix entries are exact `real`s.
- The `imgui::Textures` id allocation is not shown. The registry is an abstract `map<nat, nat>`.
- `Rect::up()`/`Rect::down()` are not defined in the shown `Rect`. Which edge each returns is a parameter (`UpDown`) of the rokol and glow contexts.
- `helper::render` and `RendererImplUtil` are not part of this model. Glow's `render` is modelled like rokol's: `before_render`, the draw calls up to the first error, and then `after_render` only on success.
- Rokol's `render` ends without `Ok(())`. It is modelled as succeeding after `end_pass`.
- Glow's `before_render` calls `res.reset_offsets()`. It is modelled as `reset_buf_offsets`, the only reset `Resources` defines.
- Glow's `draw` calls `res.draw` with three values (`idx_offset`, `n_elems`). `Resources::draw` takes `n_elems`, `idx_offset` and `vtx_offset`, in that order. Glow.DrawCall models the evident call: count `n_elems`, index offset `idx_offset`, base vertex `vtx_offset`, each cast `as i32`.
- Failed `assert!`s are modelled as error values: `None` from `GlowRes.NewBuffer` and `GlowRes.Append`, and `AppendOverflow` from Glow.DrawCall. In the source they are panics.
- Rokol ignores the offset that `append_buffer` returns. Glow draws relative to the start of the index buffer, not relative to the watermark. For frames with several draw lists, this only shows in the trace; what sokol_gfx and OpenGL then read is not modelled.
- Rokol's scissor call is commented out in the source, so its `draw` issues no scissor.
- Fna3d.DrawCall: the index element size of the draw is fixed at 16 bits in the source. The model keeps the `DrawIdx` width as a parameter only for the upload's required length.
- DrawIter.ScissorMatchesTransformedClip: relates the scissor's corner to the transformed clip only for a zero display offset, because the source does not subtract `display_pos` from the corner.
- Fna3d.ScissorIsTransformedClip: stated for a zero display offset only, for the same reason.
- Glow.GlowScissorIsTransformedClip: stated for a zero display offset with `up()` as the top edge only, for the same reason.
- Glow.Upload: "fails exactly when the geometry does not fit" is promised only while neither append can wrap (`NoWrap`). In general only one direction holds: a failure on buffers within capacity means the geometry does not fit. Past `i32::MAX` the wrap of the third Findings row lets oversized appends through.
- Glow.DrawCall: the if-and-only-if of its errors is stated under `NoWrap` only, for the same reason.
- Glow.RenderKeepsBuffersValid: holds for frames in which each reached draw call's geometry, added to a full buffer, stays within `i32` (`GeometryInRange`). Beyond that the wrapping append can leave a negative watermark (the third Findings row).
- Glow.RenderWatermarks: stated under the same `GeometryInRange` condition, for the same reason.
- GlowRes.Append: states the evidently intended append, not the code as written. The code as written is `GlowRes.AppendAsWritten`, which the adapter uses; the two agree while the new watermark fits in an `i32` (`GlowRes.AppendAsWrittenAgreesInRange`).
- GlowRes.ResetFreesCapacity: stated for the intended append, for the same reason.
- Geometry.ProjectionVerticalConvention: shows where one corner goes under each reading of `up()`. It does not decide which reading is right, because the source does not define it.

## Findings

| source | as written | input that shows it | evidently intended | confidence | as-written member | corrected member |
|---|---|---|---|---|---|---|
| src/helper.rs:273-323 | `ResetRenderState` and `RawCallback` make `next()` return `None`, which ends the caller's `for` loop | a frame whose one list is a raw callback followed by a visible draw, e.g. clip [0, 0, 800, 600] on 800x600: the callback runs and the draw is never issued | emit nothing for these commands and go on with the next one, so every later draw call is still issued | high; not executed | Fna3d.RenderEndsAtCallback | DrawIter.ForLoopSkipMatchesSteps |
| src/renderer/fna3d.rs:206-211 | scissor width and height are `Rect::width()`/`height()`, the distances between the rectangle's edges; the scissor rectangle, however, stores its extents in `right` and `bottom` | clip [100, 0, 200, 50] on 800x600 at scale 1: the scissor box gets width 0 and height 500 | width and height taken from `right` and `bottom`, the transformed clip's extents (100 and 50) | medium; not executed | Fna3d.ScissorAsWrittenLosesExtents | Fna3d.ScissorIsTransformedClip |
| src/renderer/glow/res.rs:82-92 | the slice's byte length is cast `as i32` and added to the watermark before the capacity check, so a length of 2 GiB or more wraps | 2^30 16-bit indices appended to the empty 49,152-byte index buffer: the check passes and the watermark becomes `i32::MIN` | the append fails its capacity check, leaving `0 <= len <= capacity` | low; not executed | GlowRes.AppendAsWrittenWrapsNegative | GlowRes.Append |
