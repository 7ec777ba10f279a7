/** The part of pygame's `Rect` that the game relies on: an integer rectangle,
    its derived edges and centre, the anchor setters used to place and move
    it, and `colliderect`. Screen y grows downwards. */
module Rects {

  datatype Rect = Rect(left: int, top: int, width: int, height: int)

  function Right(r: Rect): int { r.left + r.width }

  function Bottom(r: Rect): int { r.top + r.height }

  /** pygame computes `centerx` as `x + (w >> 1)`; for a divisor of 2 Dafny's
      Euclidean `/` is the same floor division. */
  function CenterX(r: Rect): int { r.left + r.width / 2 }

  function CenterY(r: Rect): int { r.top + r.height / 2 }

  /** Assigning `r.centerx = cx`: the rectangle moves sideways, keeping its size. */
  function WithCenterX(r: Rect, cx: int): (s: Rect)
    ensures CenterX(s) == cx
    ensures s.top == r.top && s.width == r.width && s.height == r.height
  {
    r.(left := cx - r.width / 2)
  }

  /** Assigning `r.centery = cy`: the rectangle moves vertically, keeping its size. */
  function WithCenterY(r: Rect, cy: int): (s: Rect)
    ensures CenterY(s) == cy
    ensures s.left == r.left && s.width == r.width && s.height == r.height
  {
    r.(top := cy - r.height / 2)
  }

  /** `image.get_rect(midtop=(x, y))` for an image of the given size. */
  function AtMidTop(width: int, height: int, x: int, y: int): (r: Rect)
    ensures r.width == width && r.height == height
    ensures CenterX(r) == x && r.top == y
  {
    Rect(x - width / 2, y, width, height)
  }

  /** `image.get_rect(midbottom=(x, y))` for an image of the given size. */
  function AtMidBottom(width: int, height: int, x: int, y: int): (r: Rect)
    ensures r.width == width && r.height == height
    ensures CenterX(r) == x && Bottom(r) == y
  {
    Rect(x - width / 2, y - height, width, height)
  }

  /** `image.get_rect(center=(x, y))` for an image of the given size. */
  function AtCenter(width: int, height: int, x: int, y: int): (r: Rect)
    ensures r.width == width && r.height == height
    ensures CenterX(r) == x && CenterY(r) == y
  {
    Rect(x - width / 2, y - height / 2, width, height)
  }

  /** The semantics assumed for pygame's `a.colliderect(b)` on rectangles of
      positive size: the two overlap strictly on both axes, so rectangles that
      only touch along an edge do not collide. */
  predicate Overlaps(a: Rect, b: Rect)
  {
    a.left < Right(b) && b.left < Right(a) && a.top < Bottom(b) && b.top < Bottom(a)
  }

  /** The pixel (x, y) lies inside r, as in pygame's `collidepoint`: the left
      and top edges are inside, the right and bottom edges are not. */
  predicate Contains(r: Rect, x: int, y: int)
  {
    r.left <= x < Right(r) && r.top <= y < Bottom(r)
  }

  /** Strict overlap is the same as sharing at least one pixel. */
  lemma OverlapsIffSharedPixel(a: Rect, b: Rect)
    requires a.width > 0 && a.height > 0 && b.width > 0 && b.height > 0
    ensures Overlaps(a, b) <==> exists x, y :: Contains(a, x, y) && Contains(b, x, y)
  {
    if Overlaps(a, b) {
      var x := if a.left < b.left then b.left else a.left;
      var y := if a.top < b.top then b.top else a.top;
      assert Contains(a, x, y) && Contains(b, x, y);
    }
  }
}
