/** The collision test of the game: two points collide when they are closer
    than a threshold on each axis separately. */
module Collision {

  function Abs(v: real): (r: real)
    ensures 0.0 <= r && (r == v || r == -v)
  {
    if v < 0.0 then -v else v
  }

  /** is_collision: strict per-axis test, not a Euclidean distance and not a
      rectangle overlap. The second point must lie in the open square of
      half-side `threshold` around the first. */
  function IsCollision(x1: real, y1: real, x2: real, y2: real, threshold: real): (r: bool)
    ensures r <==> (x1 - threshold < x2 < x1 + threshold && y1 - threshold < y2 < y1 + threshold)
  {
    Abs(x1 - x2) < threshold && Abs(y1 - y2) < threshold
  }

  /** The test does not depend on the order of its two points. */
  lemma CollisionSymmetric(x1: real, y1: real, x2: real, y2: real, threshold: real)
    ensures IsCollision(x1, y1, x2, y2, threshold) == IsCollision(x2, y2, x1, y1, threshold)
  {
  }

  /** A wider threshold accepts every pair a narrower one does. */
  lemma CollisionMonotone(x1: real, y1: real, x2: real, y2: real, t: real, u: real)
    requires t <= u
    ensures IsCollision(x1, y1, x2, y2, t) ==> IsCollision(x1, y1, x2, y2, u)
  {
  }

  /** Points on the diagonal 49 apart on each axis collide at threshold 50
      although their Euclidean distance exceeds 50; points exactly 50 apart
      on one axis do not collide, whatever the other axis. */
  lemma CollisionIsPerAxis()
    ensures IsCollision(0.0, 0.0, 49.0, 49.0, 50.0) && 49.0 * 49.0 + 49.0 * 49.0 > 50.0 * 50.0
    ensures !IsCollision(0.0, 0.0, 50.0, 0.0, 50.0)
  {
  }

  /** The hover test of draw_button: the pointer is strictly inside the
      button's rectangle. */
  function Hovered(left: int, top: int, w: int, h: int, mx: int, my: int): (r: bool)
    ensures r ==> w >= 2 && h >= 2
  {
    left < mx < left + w && top < my < top + h
  }
}
