/** Rectangles and the orthographic projection of `src/helper.rs`.
    Coordinates are `real`: the f32/f64 rounding of the source is not modelled. */
module Geometry {

  datatype Vec2 = Vec2(x: real, y: real)

  /** `helper::Rect`. Which of `top` and `bottom` holds the larger y depends on who
      built the rectangle: the display rectangle puts `pos.y + size.y` in `top`. */
  datatype Rect = Rect(left: real, top: real, right: real, bottom: real)

  function Abs(x: real): (a: real)
    ensures a >= 0.0
    ensures a == x || a == -x
  {
    if x >= 0.0 then x else -x
  }

  /** `Rect::width`: the distance between the vertical edges, never negative. */
  function Width(r: Rect): (w: real)
    ensures w >= 0.0
    ensures w == r.right - r.left || w == r.left - r.right
  {
    Abs(r.right - r.left)
  }

  /** `Rect::height`: the distance between the horizontal edges, never negative. */
  function Height(r: Rect): (h: real)
    ensures h >= 0.0
    ensures h == r.top - r.bottom || h == r.bottom - r.top
  {
    Abs(r.top - r.bottom)
  }

  /** The adapters call `Rect::up` and `Rect::down`, which no shown definition of
      `Rect` provides; which edge each returns is therefore a parameter. */
  datatype UpDown = UpIsTop | UpIsBottom

  function Up(r: Rect, c: UpDown): real {
    match c
    case UpIsTop => r.top
    case UpIsBottom => r.bottom
  }

  function Down(r: Rect, c: UpDown): real {
    match c
    case UpIsTop => r.bottom
    case UpIsBottom => r.top
  }

  /** The six arguments of `ortho_mat_gl`, in its order: left, right, bottom, top, near, far. */
  datatype Ortho = Ortho(left: real, right: real, bottom: real, top: real, near: real, far: real)

  predicate WellFormed(o: Ortho) {
    o.right != o.left && o.top != o.bottom && o.far != o.near
  }

  /** The projection the adapters request for a display rectangle: `up()` is passed
      as the bottom argument and `down()` as the top one, near 0 and far 1. */
  function ProjectionOf(display: Rect, c: UpDown): Ortho {
    Ortho(display.left, display.right, Up(display, c), Down(display, c), 0.0, 1.0)
  }

  /** `ortho_mat_gl`: a column-major 4x4 matrix, exact rational entries. */
  function OrthoMatGl(o: Ortho): (m: seq<real>)
    requires WellFormed(o)
    ensures |m| == 16
  {
    [ 2.0 / (o.right - o.left), 0.0, 0.0, 0.0,
      0.0, 2.0 / (o.top - o.bottom), 0.0, 0.0,
      0.0, 0.0, -(2.0 / (o.far - o.near)), 0.0,
      -((o.right + o.left) / (o.right - o.left)),
      -((o.top + o.bottom) / (o.top - o.bottom)),
      o.near / (o.near - o.far),
      1.0 ]
  }

  datatype Vec4 = Vec4(x: real, y: real, z: real, w: real)

  /** The column-major matrix `m` applied to the point (x, y, z, 1). */
  function Apply(m: seq<real>, x: real, y: real, z: real): Vec4
    requires |m| == 16
  {
    Vec4(m[0] * x + m[4] * y + m[8] * z + m[12],
         m[1] * x + m[5] * y + m[9] * z + m[13],
         m[2] * x + m[6] * y + m[10] * z + m[14],
         m[3] * x + m[7] * y + m[11] * z + m[15])
  }

  /** Only the diagonal and the translation column are non-zero: the projection
      scales and shifts each axis independently. */
  lemma OrthoOnlyScalesAndShifts(o: Ortho)
    requires WellFormed(o)
    ensures var m := OrthoMatGl(o);
      forall k :: 0 <= k < 16 && k != 0 && k != 5 && k != 10 && k != 12 && k != 13 && k != 14 && k != 15
        ==> m[k] == 0.0
    ensures OrthoMatGl(o)[15] == 1.0
  {
  }

  /** The left/bottom corner goes to (-1, -1) and the right/top corner to (+1, +1),
      with w = 1 (no perspective division). */
  lemma OrthoMapsCornersToUnitSquare(o: Ortho, z: real)
    requires WellFormed(o)
    ensures var p := Apply(OrthoMatGl(o), o.left, o.bottom, z); p.x == -1.0 && p.y == -1.0 && p.w == 1.0
    ensures var p := Apply(OrthoMatGl(o), o.right, o.top, z); p.x == 1.0 && p.y == 1.0 && p.w == 1.0
  {
    var m := OrthoMatGl(o);
    var dx := o.right - o.left;
    var dy := o.top - o.bottom;
    assert m[0] * o.left + m[12] == (2.0 * o.left - (o.right + o.left)) / dx;
    assert m[0] * o.right + m[12] == (2.0 * o.right - (o.right + o.left)) / dx;
    assert m[5] * o.bottom + m[13] == (2.0 * o.bottom - (o.top + o.bottom)) / dy;
    assert m[5] * o.top + m[13] == (2.0 * o.top - (o.top + o.bottom)) / dy;
  }

  /** Swapping the bottom and top arguments (to make y grow downward) negates
      exactly entries 5 and 13 and leaves every other entry unchanged. */
  lemma OrthoSwapNegatesY(o: Ortho)
    requires WellFormed(o)
    ensures var s := o.(bottom := o.top, top := o.bottom);
      WellFormed(s) &&
      var m, n := OrthoMatGl(o), OrthoMatGl(s);
      n[5] == -m[5] && n[13] == -m[13] &&
      forall k :: 0 <= k < 16 && k != 5 && k != 13 ==> n[k] == m[k]
  {
    var s := o.(bottom := o.top, top := o.bottom);
    var dy := o.top - o.bottom;
    assert 2.0 / (o.bottom - o.top) == -(2.0 / dy);
    assert (o.bottom + o.top) / (o.bottom - o.top) == -((o.top + o.bottom) / dy);
  }

  /** With the `UpIsTop` reading of `up()`, the projection sends the display's
      `bottom` field (the smaller GUI y) to the top of clip space: GUI y grows
      downward on screen. With `UpIsBottom` it is sent to the bottom. */
  lemma ProjectionVerticalConvention(display: Rect)
    requires display.right != display.left && display.top != display.bottom
    ensures var p := Apply(OrthoMatGl(ProjectionOf(display, UpIsTop)), display.left, display.bottom, 0.0);
      p.x == -1.0 && p.y == 1.0
    ensures var p := Apply(OrthoMatGl(ProjectionOf(display, UpIsBottom)), display.left, display.bottom, 0.0);
      p.x == -1.0 && p.y == -1.0
  {
    OrthoMapsCornersToUnitSquare(ProjectionOf(display, UpIsTop), 0.0);
    OrthoMapsCornersToUnitSquare(ProjectionOf(display, UpIsBottom), 0.0);
  }

  /** An integer scissor box: x, y of one corner, then width and height. */
  datatype ScissorBox = ScissorBox(x: int, y: int, w: int, h: int)
}
