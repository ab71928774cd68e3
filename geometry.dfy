/**
  Collision primitives of the runner: the clamp helper, the rectangle/rectangle
  overlap test used for player versus obstacle, and the circle/rectangle test
  used for coin versus player. Coordinates are exact reals; y grows downwards.
 */
module Geometry {

  /** An axis-aligned box with top-left corner (x, y), width w and height h. */
  datatype Rect = Rect(x: real, y: real, w: real, h: real)

  /** A disc with centre (x, y) and radius r. */
  datatype Circle = Circle(x: real, y: real, r: real)

  /** JavaScript's Math.min on two numbers. */
  function Min(a: real, b: real): (m: real)
    ensures m <= a && m <= b && (m == a || m == b)
  {
    if a <= b then a else b
  }

  /** JavaScript's Math.max on two numbers. */
  function Max(a: real, b: real): (m: real)
    ensures a <= m && b <= m && (m == a || m == b)
  {
    if a >= b then a else b
  }

  /**
    clamp(v, lo, hi) = max(lo, min(hi, v)): the point of [lo, hi] nearest to v.
    When lo > hi the outer max wins and the result is lo.
   */
  function Clamp(v: real, lo: real, hi: real): (r: real)
    ensures lo <= r
    ensures lo <= hi ==> r <= hi
    ensures lo <= v <= hi ==> r == v
    ensures v <= lo ==> r == lo
    ensures lo <= hi <= v ==> r == hi
    ensures hi < lo ==> r == lo
  {
    Max(lo, Min(hi, v))
  }

  /** The point (px, py) lies in the closed box. */
  predicate InRect(b: Rect, px: real, py: real)
  {
    b.x <= px <= b.x + b.w && b.y <= py <= b.y + b.h
  }

  /** Squared Euclidean distance between two points. */
  function Dist2(x1: real, y1: real, x2: real, y2: real): real
  {
    (x1 - x2) * (x1 - x2) + (y1 - y2) * (y1 - y2)
  }

  /**
    rectIntersect(a, b): the boxes are NOT separated along either axis.
    Separation is strict, so boxes that only touch count as overlapping.
   */
  function RectIntersect(a: Rect, b: Rect): (r: bool)
    ensures r <==> (b.x <= a.x + a.w && a.x <= b.x + b.w && b.y <= a.y + a.h && a.y <= b.y + b.h)
  {
    !(a.x + a.w < b.x || a.x > b.x + b.w || a.y + a.h < b.y || a.y > b.y + b.h)
  }

  /** The test does not depend on which box is the player. */
  lemma RectIntersectSymmetric(a: Rect, b: Rect)
    ensures RectIntersect(a, b) == RectIntersect(b, a)
  {
  }

  /**
    For boxes of non-negative size, rectIntersect holds exactly when the two
    closed boxes share a point.
   */
  lemma RectIntersectMeansSharedPoint(a: Rect, b: Rect)
    requires a.w >= 0.0 && a.h >= 0.0 && b.w >= 0.0 && b.h >= 0.0
    ensures RectIntersect(a, b) <==> exists px, py :: InRect(a, px, py) && InRect(b, px, py)
  {
    if RectIntersect(a, b) {
      var px, py := Max(a.x, b.x), Max(a.y, b.y);
      assert InRect(a, px, py) && InRect(b, px, py);
    }
  }

  /** Boxes whose edges merely touch overlap: an obstacle grazing the player kills. */
  lemma TouchingRectsIntersect(a: Rect, b: Rect)
    requires a.x + a.w == b.x
    requires b.y <= a.y + a.h && a.y <= b.y + b.h
    requires a.w >= 0.0 && b.w >= 0.0
    ensures RectIntersect(a, b) && RectIntersect(b, a)
  {
  }

  /**
    circleRectIntersect(circle, rect): the squared distance from the centre to
    the nearest point of the box (the centre clamped into it, axis by axis) is
    at most r * r.
   */
  function CircleRectIntersect(c: Circle, b: Rect): (r: bool)
    ensures InRect(b, c.x, c.y) ==> r
  {
    var nearestX := Max(b.x, Min(c.x, b.x + b.w));
    var nearestY := Max(b.y, Min(c.y, b.y + b.h));
    Dist2(c.x, c.y, nearestX, nearestY) <= c.r * c.r
  }

  lemma SquareMonotone(a: real, b: real)
    requires 0.0 <= a <= b
    ensures a * a <= b * b
  {
    calc {
      a * a;
    <= { assert a * (b - a) >= 0.0; }
      a * b;
    <= { assert (b - a) * b >= 0.0; }
      b * b;
    }
  }

  /** The clamped coordinate is the point of [lo, hi] nearest to v. */
  lemma ClampIsNearest(v: real, lo: real, hi: real, p: real)
    requires lo <= p <= hi
    ensures (v - Clamp(v, lo, hi)) * (v - Clamp(v, lo, hi)) <= (v - p) * (v - p)
  {
    var q := Clamp(v, lo, hi);
    if v < lo {
      SquareMonotone(q - v, p - v);
      assert (v - q) * (v - q) == (q - v) * (q - v);
      assert (v - p) * (v - p) == (p - v) * (p - v);
    } else if v > hi {
      SquareMonotone(v - q, v - p);
    } else {
      assert q == v;
      assert (v - p) * (v - p) >= 0.0;
    }
  }

  /**
    For a box of non-negative size, circleRectIntersect holds exactly when
    some point of the closed box lies within the closed disc. In particular a
    coin whose edge is tangent to the player's box is collected.
   */
  lemma CircleRectMeansReachablePoint(c: Circle, b: Rect)
    requires b.w >= 0.0 && b.h >= 0.0
    ensures CircleRectIntersect(c, b) <==>
            exists px, py :: InRect(b, px, py) && Dist2(c.x, c.y, px, py) <= c.r * c.r
  {
    var nx, ny := Clamp(c.x, b.x, b.x + b.w), Clamp(c.y, b.y, b.y + b.h);
    assert InRect(b, nx, ny);
    forall px, py | InRect(b, px, py)
      ensures Dist2(c.x, c.y, nx, ny) <= Dist2(c.x, c.y, px, py)
    {
      ClampIsNearest(c.x, b.x, b.x + b.w, px);
      ClampIsNearest(c.y, b.y, b.y + b.h, py);
    }
  }

  /** A coin exactly tangent to the player's box (distance == radius) is collected. */
  lemma TangentCoinCollected(b: Rect, r: real)
    requires b.w >= 0.0 && b.h >= 0.0 && r >= 0.0
    ensures CircleRectIntersect(Circle(b.x - r, b.y, r), b)
    ensures !CircleRectIntersect(Circle(b.x - r - 1.0, b.y, r), b)
  {
    assert Dist2(b.x - r - 1.0, b.y, b.x, b.y) == (r + 1.0) * (r + 1.0);
  }
}
