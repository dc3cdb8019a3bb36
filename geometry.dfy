/**
  Integer rectangles as SDL2 defines them, and the float-to-integer cast the
  game applies before building one.

  A rectangle has a top-left corner and a width and height; its right and
  bottom edges are exclusive. Rust's `f32 as i32` truncates toward zero.
 */
module Geometry {

  datatype Rect = Rect(x: int, y: int, w: nat, h: nat) {
    function Right(): int { x + w }
    function Bottom(): int { y + h }
    predicate IsEmpty() { w == 0 || h == 0 }
  }

  /** `Rect::new`: a zero width or height becomes 1, so a rectangle is
      never empty. */
  function NewRect(x: int, y: int, w: nat, h: nat): (r: Rect)
    ensures !r.IsEmpty() && r.x == x && r.y == y
    ensures w > 0 ==> r.w == w
    ensures h > 0 ==> r.h == h
  {
    Rect(x, y, if w == 0 then 1 else w, if h == 0 then 1 else h)
  }

  function Max(a: int, b: int): int { if a >= b then a else b }
  function Min(a: int, b: int): int { if a <= b then a else b }

  /** `SDL_HasIntersection`: an empty rectangle meets nothing; otherwise the
      overlap of the two spans must be non-empty on both axes. */
  predicate HasIntersection(a: Rect, b: Rect)
    ensures HasIntersection(a, b) <==>
              && !a.IsEmpty() && !b.IsEmpty()
              && a.x < b.Right() && b.x < a.Right()
              && a.y < b.Bottom() && b.y < a.Bottom()
  {
    && !a.IsEmpty() && !b.IsEmpty()
    && Max(a.x, b.x) < Min(a.Right(), b.Right())
    && Max(a.y, b.y) < Min(a.Bottom(), b.Bottom())
  }

  /** `Rect::contains_point`: left and top inclusive, right and bottom exclusive. */
  predicate ContainsPoint(r: Rect, px: int, py: int)
    ensures ContainsPoint(r, px, py) ==> !r.IsEmpty()
  {
    r.x <= px < r.Right() && r.y <= py < r.Bottom()
  }

  /** A point lies in a rectangle exactly when the 1x1 rectangle at that
      point meets it, so point and rectangle hit tests agree. */
  lemma PointIsUnitRect(r: Rect, px: int, py: int)
    ensures ContainsPoint(r, px, py) <==> HasIntersection(r, Rect(px, py, 1, 1))
  {
  }

  /** The interval test agrees with its meaning: two rectangles intersect
      exactly when some integer point lies in both. */
  lemma IntersectionIsCommonPoint(a: Rect, b: Rect)
    ensures HasIntersection(a, b) <==>
            exists px, py :: ContainsPoint(a, px, py) && ContainsPoint(b, px, py)
  {
    if HasIntersection(a, b) {
      var px, py := Max(a.x, b.x), Max(a.y, b.y);
      assert ContainsPoint(a, px, py) && ContainsPoint(b, px, py);
    }
    if exists px, py :: ContainsPoint(a, px, py) && ContainsPoint(b, px, py) {
      var px, py :| ContainsPoint(a, px, py) && ContainsPoint(b, px, py);
      assert Max(a.x, b.x) <= px < Min(a.Right(), b.Right());
      assert Max(a.y, b.y) <= py < Min(a.Bottom(), b.Bottom());
    }
  }

  /** Rust's `as i32` on a float: truncation toward zero. */
  function Trunc(r: real): (n: int)
    ensures r >= 0.0 ==> 0 <= n && n as real <= r < n as real + 1.0
    ensures r < 0.0 ==> n <= 0 && n as real - 1.0 < r <= n as real
  {
    if r >= 0.0 then r.Floor else -((-r).Floor)
  }
}
