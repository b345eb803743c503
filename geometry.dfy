/** Screen and sprite constants of Space Dodge, and the axis-aligned
    rectangles (pygame Rects) that every actor occupies. */
module Geometry {
  const WIDTH: int := 1920
  const HEIGHT: int := 800
  const PLAYER_WIDTH: int := 40
  const PLAYER_HEIGHT: int := 60
  const PLAYER_VEL: int := 5
  const STAR_WIDTH: int := 50
  const STAR_HEIGHT: int := 30
  const LASER_WIDTH: int := 30
  const LASER_HEIGHT: int := 75
  const LASER_VEL: int := 7
  /** Milliseconds that must pass between two shots. */
  const LASER_COOLDOWN: int := 500

  datatype Rect = Rect(x: int, y: int, w: int, h: int) {
    function Bottom(): int { y + h }
    /** pygame's centerx, x + w // 2. */
    function CenterX(): int { x + w / 2 }
  }

  /** pygame's colliderect: the interiors intersect on both axes, so
      rectangles that merely share an edge do not collide. */
  predicate Overlaps(a: Rect, b: Rect)
    ensures a.w > 0 && a.h > 0 && b.w > 0 && b.h > 0 ==>
      (Overlaps(a, b) <==> Contains(a, Max(a.x, b.x), Max(a.y, b.y)) && Contains(b, Max(a.x, b.x), Max(a.y, b.y)))
  {
    a.x < b.x + b.w && b.x < a.x + a.w &&
    a.y < b.y + b.h && b.y < a.y + a.h
  }

  /** The pixel (px, py) lies inside r. */
  predicate Contains(r: Rect, px: int, py: int) {
    r.x <= px < r.x + r.w && r.y <= py < r.y + r.h
  }

  /** For rectangles of positive size, colliding means sharing a pixel. */
  lemma OverlapsIffSharedPixel(a: Rect, b: Rect)
    requires a.w > 0 && a.h > 0 && b.w > 0 && b.h > 0
    ensures Overlaps(a, b) <==> exists px, py :: Contains(a, px, py) && Contains(b, px, py)
  {
    if Overlaps(a, b) {
      var px, py := Max(a.x, b.x), Max(a.y, b.y);
      assert Contains(a, px, py) && Contains(b, px, py);
    }
    forall px, py | Contains(a, px, py) && Contains(b, px, py) ensures Overlaps(a, b) {
    }
  }

  /** The size and column every asteroid and alien is spawned with:
      star-sized, with x drawn from 0 .. WIDTH - STAR_WIDTH. */
  predicate ObstacleShape(o: Rect) {
    o.w == STAR_WIDTH && o.h == STAR_HEIGHT && 0 <= o.x <= WIDTH - STAR_WIDTH
  }

  function Max(a: int, b: int): int { if a < b then b else a }
}
