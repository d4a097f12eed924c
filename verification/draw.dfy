/** One frame's draw output as the GUI library hands it to a renderer
    (`imgui::DrawData`, `DrawList`, `DrawCmd`), and the per-call descriptor
    `helper::DrawParams` that the iterator derives from it. */
module Draw {
  import opened Geometry

  /** `imgui::DrawVert`: position, texture coordinate, packed RGBA colour. */
  datatype DrawVert = DrawVert(pos: Vec2, uv: Vec2, col: nat)

  /** `size_of::<imgui::DrawVert>()`: two f32 pairs and four colour bytes. */
  const DRAW_VERT_SIZE: nat := 20

  /** `imgui::DrawIdx` is `u16` unless the library is built with 32-bit indices. */
  datatype IndexWidth = Idx16 | Idx32

  /** `size_of::<imgui::DrawIdx>()`. */
  function IndexSize(w: IndexWidth): nat {
    match w
    case Idx16 => 2
    case Idx32 => 4
  }

  /** A clip rectangle in GUI space, `[x, y, z, w]` = left, top, right, bottom,
      with y growing downward. */
  datatype ClipRect = ClipRect(x: real, y: real, z: real, w: real)

  /** `imgui::DrawCmd`. A raw callback is an opaque function; the model keeps only
      the user data it is called with. */
  datatype DrawCmd =
    | Elements(count: nat, clip: ClipRect, textureId: nat, vtxOffset: nat, idxOffset: nat)
    | ResetRenderState
    | RawCallback(userData: nat)

  datatype DrawList = DrawList(vtxBuffer: seq<DrawVert>, idxBuffer: seq<nat>, commands: seq<DrawCmd>)

  datatype DrawData = DrawData(displayPos: Vec2, displaySize: Vec2, framebufferScale: Vec2, lists: seq<DrawList>)

  /** `helper::DrawParams`: one draw call, with the owning list's whole buffers. */
  datatype DrawParams = DrawParams(
    display: Rect,
    vtxBuffer: seq<DrawVert>,
    vtxOffset: nat,
    idxBuffer: seq<nat>,
    idxOffset: nat,
    nElems: nat,
    texId: nat,
    scissor: Rect)
}
