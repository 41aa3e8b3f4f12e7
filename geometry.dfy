/**
 * pygame's integer rectangle, the image sizes it is built from, and the
 * coercion pygame applies when a float is stored into a rectangle attribute.
 */
module Geometry {

  /** The size of an image: all the model keeps of a pygame Surface. */
  datatype Size = Size(w: nat, h: nat)

  /** A pygame Rect: integer top-left corner and non-negative size. */
  datatype Rect = Rect(x: int, y: int, w: nat, h: nat) {
    function Left(): int { x }
    function Right(): int { x + w }
    function Top(): int { y }
    function Bottom(): int { y + h }
    /** pygame's `centerx` is `x + w / 2` in C integer division. */
    function CenterX(): int { x + w / 2 }
    function CenterY(): int { y + h / 2 }
    function MidBottom(): (int, int) { (CenterX(), Bottom()) }
    function Dimensions(): Size { Size(w, h) }

    /** Assigning `rect.left`, `rect.right`, `rect.top` or `rect.bottom`: a move, never a resize. */
    function WithLeft(l: int): (r: Rect)
      ensures r.Left() == l && r.y == y && r.Dimensions() == Dimensions()
    {
      this.(x := l)
    }

    function WithRight(rt: int): (r: Rect)
      ensures r.Right() == rt && r.y == y && r.Dimensions() == Dimensions()
    {
      this.(x := rt - w)
    }

    function WithTop(t: int): (r: Rect)
      ensures r.Top() == t && r.x == x && r.Dimensions() == Dimensions()
    {
      this.(y := t)
    }

    function WithBottom(b: int): (r: Rect)
      ensures r.Bottom() == b && r.x == x && r.Dimensions() == Dimensions()
    {
      this.(y := b - h)
    }

    /** `colliderect`: the interiors overlap on both axes; sharing an edge is not a collision. */
    predicate Collides(other: Rect)
    {
      Left() < other.Right() && other.Left() < Right() &&
      Top() < other.Bottom() && other.Top() < Bottom()
    }
  }

  /** `image.get_rect(topleft=(x, y))` and the other anchors: a rectangle of the image's size placed so that the anchor point lands where asked. */
  function AtTopLeft(s: Size, x: int, y: int): (r: Rect)
    ensures r.Left() == x && r.Top() == y && r.Dimensions() == s
  {
    Rect(x, y, s.w, s.h)
  }

  function AtTopRight(s: Size, right: int, top: int): (r: Rect)
    ensures r.Right() == right && r.Top() == top && r.Dimensions() == s
  {
    Rect(right - s.w, top, s.w, s.h)
  }

  function AtBottomLeft(s: Size, left: int, bottom: int): (r: Rect)
    ensures r.Left() == left && r.Bottom() == bottom && r.Dimensions() == s
  {
    Rect(left, bottom - s.h, s.w, s.h)
  }

  function AtBottomRight(s: Size, right: int, bottom: int): (r: Rect)
    ensures r.Right() == right && r.Bottom() == bottom && r.Dimensions() == s
  {
    Rect(right - s.w, bottom - s.h, s.w, s.h)
  }

  function AtMidTop(s: Size, centerX: int, top: int): (r: Rect)
    ensures r.CenterX() == centerX && r.Top() == top && r.Dimensions() == s
  {
    Rect(centerX - s.w / 2, top, s.w, s.h)
  }

  function AtMidBottom(s: Size, centerX: int, bottom: int): (r: Rect)
    ensures r.CenterX() == centerX && r.Bottom() == bottom && r.Dimensions() == s
  {
    Rect(centerX - s.w / 2, bottom - s.h, s.w, s.h)
  }

  function AtCenter(s: Size, centerX: int, centerY: int): (r: Rect)
    ensures r.CenterX() == centerX && r.CenterY() == centerY && r.Dimensions() == s
  {
    Rect(centerX - s.w / 2, centerY - s.h / 2, s.w, s.h)
  }

  /** Overlap does not depend on which rectangle asks. */
  lemma CollidesSymmetric(a: Rect, b: Rect)
    ensures a.Collides(b) <==> b.Collides(a)
  {
  }

  /**
   * pygame stores a float assigned to a Rect attribute as a C `int` cast of it:
   * truncation toward zero.
   */
  function Trunc(v: real): (n: int)
    ensures -1.0 < v - n as real < 1.0
    ensures v >= 0.0 ==> 0 <= n && n as real <= v
    ensures v <= 0.0 ==> n <= 0 && v <= n as real
  {
    if v >= 0.0 then v.Floor else -((-v).Floor)
  }

  /** A float that holds an integer is stored unchanged. */
  lemma TruncOfInteger(k: int)
    ensures Trunc(k as real) == k
  {
  }
}
