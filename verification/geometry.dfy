/** Integer rectangles, points and insets in the style of the gfx library:
    a rectangle's size is never negative, containment is half-open. */
module Geometry {

  datatype Point = Point(x: int, y: int)

  /** An origin and a size. The size is a `nat` because a gfx size clamps
      negative extents to zero when it is built. */
  datatype Rect = Rect(x: int, y: int, width: nat, height: nat) {

    function Right(): int { x + width }

    function Bottom(): int { y + height }

    /** Half-open containment: the left and top edges belong to the rectangle,
        the right and bottom edges do not. */
    predicate Contains(p: Point) {
      x <= p.x < Right() && y <= p.y < Bottom()
    }

    /** `inner` lies entirely within this rectangle. */
    predicate Encloses(inner: Rect) {
      x <= inner.x && inner.Right() <= Right() &&
      y <= inner.y && inner.Bottom() <= Bottom()
    }
  }

  /** `max(0, n)`: the least natural number at or above `n`, which is `n`
      itself or 0. */
  function ClampToZero(n: int): (r: nat)
    ensures r >= n
    ensures r == n || r == 0
  {
    if n < 0 then 0 else n
  }

  /** Builds a rectangle from possibly negative extents, which become zero. */
  function MakeRect(x: int, y: int, width: int, height: int): Rect {
    Rect(x, y, ClampToZero(width), ClampToZero(height))
  }

  /** Distances from each edge of an outer rectangle to an inner one. */
  datatype Insets = Insets(top: int, left: int, bottom: int, right: int)

  /** The rectangle around `inner` that leaves `top` above it and the
      insets' left, right and bottom on the other sides, with its origin
      clamped at zero. It grows by exactly the insets; where the origin is not
      clamped it encloses `inner` with exactly those margins, and where it is
      clamped it starts at 0. */
  function Outset(inner: Rect, top: int, i: Insets): (r: Rect)
    requires top >= 0 && i.left >= 0 && i.right >= 0 && i.bottom >= 0
    ensures r.width == inner.width + (i.left + i.right)
    ensures r.height == inner.height + top + i.bottom
    ensures r.x >= 0 && r.y >= 0
    ensures inner.x >= i.left ==>
              inner.x - r.x == i.left && r.Right() - inner.Right() == i.right
    ensures inner.y >= top ==>
              inner.y - r.y == top && r.Bottom() - inner.Bottom() == i.bottom
    ensures inner.x >= i.left && inner.y >= top ==> r.Encloses(inner)
    ensures inner.x < i.left ==> r.x == 0
    ensures inner.y < top ==> r.y == 0
  {
    Rect(ClampToZero(inner.x - i.left), ClampToZero(inner.y - top),
         inner.width + (i.left + i.right), inner.height + top + i.bottom)
  }

  /** The same inset on all four sides. */
  function UniformInsets(t: int): Insets {
    Insets(t, t, t, t)
  }

  function ZeroInsets(): Insets {
    Insets(0, 0, 0, 0)
  }
}
