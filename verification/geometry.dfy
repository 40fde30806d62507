/**
  Plane geometry used by the "No"-button avoidance logic.

  Coordinates are viewport pixels, modelled as `real`. The application compares
  Euclidean distances (`Math.sqrt` of a sum of squares) against fixed radii;
  here the square root is never taken: distances are compared through their
  squares, and `BelowIffSquaredBelow` shows that this gives the same answer.
*/
module Geometry {

  datatype Point = Point(x: real, y: real)

  datatype Size = Size(width: real, height: real)

  /** A bounding rectangle as the layout reports it: top-left corner and size. */
  datatype Rect = Rect(left: real, top: real, width: real, height: real)

  /** `Math.max` of two numbers. */
  function Max(a: real, b: real): (r: real)
    ensures a <= r && b <= r
    ensures r == a || r == b
  {
    if a < b then b else a
  }

  /** `Math.min` of two numbers. */
  function Min(a: real, b: real): (r: real)
    ensures r <= a && r <= b
    ensures r == a || r == b
  {
    if b < a then b else a
  }

  /**
    `Math.max(lo, Math.min(hi, v))`, the idiom the application uses to keep a
    coordinate inside `[lo, hi]`. When the interval is empty the lower bound wins.
  */
  function Clamp(v: real, lo: real, hi: real): (r: real)
    ensures lo <= r
    ensures lo <= hi ==> r <= hi
    ensures lo <= v <= hi ==> r == v
    ensures v < lo ==> r == lo
    ensures lo <= hi < v ==> r == hi
    ensures hi < lo ==> r == lo
  {
    Max(lo, Min(hi, v))
  }

  /** Clamping twice is clamping once. */
  lemma ClampIdempotent(v: real, lo: real, hi: real)
    ensures Clamp(Clamp(v, lo, hi), lo, hi) == Clamp(v, lo, hi)
  {
  }

  /** Clamping preserves the order of its argument. */
  lemma ClampMonotone(a: real, b: real, lo: real, hi: real)
    requires a <= b
    ensures Clamp(a, lo, hi) <= Clamp(b, lo, hi)
  {
  }

  /** Centre of a rectangle: its top-left corner plus half its size. */
  function Centre(r: Rect): (c: Point)
    ensures r.width >= 0.0 ==> r.left <= c.x <= r.left + r.width
    ensures r.height >= 0.0 ==> r.top <= c.y <= r.top + r.height
    ensures c.x - r.left == r.left + r.width - c.x
    ensures c.y - r.top == r.top + r.height - c.y
  {
    Point(r.left + r.width / 2.0, r.top + r.height / 2.0)
  }

  /** The square of a non-zero number is positive. */
  lemma SquarePositive(x: real)
    requires x != 0.0
    ensures 0.0 < x * x
  {
    if x < 0.0 {
      assert x * x == (-x) * (-x);
    }
  }

  /** Squaring is strictly increasing on the non-negative numbers. */
  lemma SquareBelow(a: real, b: real)
    requires 0.0 <= a < b
    ensures a * a < b * b
  {
    var e := b - a;
    assert b * b == a * a + 2.0 * a * e + e * e;
    SquarePositive(e);
    assert 0.0 <= a * e;
  }

  /** Squaring is increasing on the non-negative numbers. */
  lemma SquareAtMost(a: real, b: real)
    requires 0.0 <= a <= b
    ensures a * a <= b * b
  {
    var e := b - a;
    assert b * b == a * a + 2.0 * a * e + e * e;
    assert 0.0 <= e * e;
    assert 0.0 <= a * e;
  }

  /** Square of the Euclidean distance from `p` to `q`. */
  function DistanceSquared(p: Point, q: Point): (d: real)
    ensures 0.0 <= d
  {
    var dx, dy := p.x - q.x, p.y - q.y;
    assert 0.0 <= dx * dx && 0.0 <= dy * dy;
    dx * dx + dy * dy
  }

  /**
    Square of the distance from `p` to the centre of `r`: what the application
    computes, before its square root, for a pointer position and a button rectangle.
  */
  function CentreDistanceSquared(r: Rect, p: Point): (d: real)
    ensures 0.0 <= d
  {
    DistanceSquared(p, Centre(r))
  }

  /** `d` is the Euclidean distance from `p` to `q`, the value `Math.sqrt` yields. */
  ghost predicate IsDistance(d: real, p: Point, q: Point)
  {
    0.0 <= d && d * d == DistanceSquared(p, q)
  }

  /**
    Comparing a distance with a non-negative bound is the same as comparing
    the squared distance with the squared bound.
  */
  lemma BelowIffSquaredBelow(d: real, p: Point, q: Point, bound: real)
    requires IsDistance(d, p, q) && 0.0 <= bound
    ensures d < bound <==> DistanceSquared(p, q) < bound * bound
  {
    if d < bound {
      SquareBelow(d, bound);
    } else {
      SquareAtMost(bound, d);
    }
  }
}
