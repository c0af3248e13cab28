/** Pixel and normalized coordinates, and the integer truncation both
    programs apply when they turn a fraction back into a pixel. Python
    floats are modelled as exact reals. */
module Coordinates {

  /** An integer pixel position (a `QPoint`, or one row of an int32 array). */
  datatype Point = Point(x: int, y: int)

  /** The range of the C `int` a `QPoint` stores; PyQt raises
      `OverflowError` when a coordinate handed to `QPoint` lies outside it. */
  const IntMin: int := -0x8000_0000
  const IntMax: int := 0x7FFF_FFFF

  /** Both coordinates can be stored in a `QPoint`. */
  predicate FitsQPoint(p: Point) {
    IntMin <= p.x <= IntMax && IntMin <= p.y <= IntMax
  }

  /** A position as fractions of the canvas or frame width and height. */
  datatype NormPoint = NormPoint(x: real, y: real)

  /** `n` is what Python's `int(r)` yields: the integer next to `r` on the
      side of zero. */
  ghost predicate TruncatesTo(r: real, n: int) {
    && (0.0 <= r ==> n as real <= r < n as real + 1.0)
    && (r < 0.0 ==> n as real - 1.0 < r <= n as real)
  }

  /** Python's `int()` applied to a number: truncation toward zero. */
  function Trunc(r: real): (n: int)
    ensures TruncatesTo(r, n)
    ensures 0.0 <= r ==> 0 <= n
  {
    if r >= 0.0 then r.Floor else -((-r).Floor)
  }

  /** Truncation has exactly one admissible result. */
  lemma TruncUnique(r: real, n: int)
    requires TruncatesTo(r, n)
    ensures n == Trunc(r)
  {
    var m := Trunc(r);
    if 0.0 <= r {
      assert n as real <= r < m as real + 1.0 && m as real <= r < n as real + 1.0;
    } else {
      assert n as real - 1.0 < r <= m as real && m as real - 1.0 < r <= n as real;
    }
  }

  /** Truncating a whole number gives it back. */
  lemma TruncOfInt(k: int)
    ensures Trunc(k as real) == k
  {
    TruncUnique(k as real, k);
  }

  /** A truncated value between 0 and a bound stays between 0 and that bound. */
  lemma TruncWithin(r: real, bound: int)
    requires 0.0 <= r <= bound as real
    ensures 0 <= Trunc(r) <= bound
  {
  }

  /** Divides a pixel position by the canvas width and height. */
  function Normalize(p: Point, w: int, h: int): (q: NormPoint)
    requires w != 0 && h != 0
    ensures q.x * w as real == p.x as real && q.y * h as real == p.y as real
  {
    NormPoint(p.x as real / w as real, p.y as real / h as real)
  }

  /** Multiplies a normalized position by a frame width and height and
      truncates each coordinate, as `int(x * w), int(y * h)` does. */
  function Denormalize(q: NormPoint, w: int, h: int): (p: Point)
    ensures TruncatesTo(q.x * w as real, p.x) && TruncatesTo(q.y * h as real, p.y)
  {
    Point(Trunc(q.x * w as real), Trunc(q.y * h as real))
  }

  /** Moves a pixel position from a canvas of size (ow, oh) to one of size
      (nw, nh): relative position first, then truncation. */
  function Rescale(p: Point, ow: int, oh: int, nw: int, nh: int): (r: Point)
    requires ow != 0 && oh != 0
    ensures TruncatesTo(p.x as real / ow as real * nw as real, r.x)
    ensures TruncatesTo(p.y as real / oh as real * nh as real, r.y)
  {
    Denormalize(Normalize(p, ow, oh), nw, nh)
  }

  /** Normalizing a pixel and scaling it back to the same size loses nothing. */
  lemma NormalizeRoundTrip(p: Point, w: int, h: int)
    requires w != 0 && h != 0
    ensures Denormalize(Normalize(p, w, h), w, h) == p
  {
    var q := Normalize(p, w, h);
    TruncOfInt(p.x);
    TruncOfInt(p.y);
    assert q.x * w as real == p.x as real;
    assert q.y * h as real == p.y as real;
  }

  /** Rescaling to the size a canvas already has leaves every point in place. */
  lemma RescaleSameSize(p: Point, w: int, h: int)
    requires w != 0 && h != 0
    ensures Rescale(p, w, h, w, h) == p
  {
    NormalizeRoundTrip(p, w, h);
  }

  /** The pixel polygon derived from a normalized shape is reproduced
      exactly when it is normalized and derived again at the same size. */
  lemma PixelRoundTrip(q: NormPoint, w: int, h: int)
    requires w > 0 && h > 0
    ensures Denormalize(Normalize(Denormalize(q, w, h), w, h), w, h) == Denormalize(q, w, h)
  {
    NormalizeRoundTrip(Denormalize(q, w, h), w, h);
  }

  /** A fraction of a non-negative quantity lies between zero and that quantity. */
  lemma ScaleAtMost(a: real, b: real)
    requires 0.0 <= a <= 1.0 && 0.0 <= b
    ensures 0.0 <= a * b <= b
  {
    assert (1.0 - a) * b >= 0.0;
  }

  /** A fraction of a non-negative size, truncated, stays within that size. */
  lemma ScaledTruncWithin(a: real, w: int)
    requires 0.0 <= a <= 1.0 && 0 <= w
    ensures 0 <= Trunc(a * w as real) <= w
  {
    ScaleAtMost(a, w as real);
    TruncWithin(a * w as real, w);
  }

  /** A normalized position inside the unit square lands inside the frame,
      edges included. */
  lemma DenormalizeWithin(q: NormPoint, w: int, h: int)
    requires 0.0 <= q.x <= 1.0 && 0.0 <= q.y <= 1.0
    requires 0 <= w && 0 <= h
    ensures 0 <= Denormalize(q, w, h).x <= w
    ensures 0 <= Denormalize(q, w, h).y <= h
  {
    assert Denormalize(q, w, h) == Point(Trunc(q.x * w as real), Trunc(q.y * h as real));
    ScaledTruncWithin(q.x, w);
    ScaledTruncWithin(q.y, h);
  }

  /** A part of a positive whole is a fraction between zero and one. */
  lemma FractionWithin(a: real, b: real)
    requires 0.0 <= a <= b && 0.0 < b
    ensures 0.0 <= a / b <= 1.0
  {
    assert a / b * b == a;
  }

  /** A point inside the old canvas stays inside the resized canvas. */
  lemma RescaleWithin(p: Point, ow: int, oh: int, nw: int, nh: int)
    requires 0 < ow && 0 < oh && 0 <= nw && 0 <= nh
    requires 0 <= p.x <= ow && 0 <= p.y <= oh
    ensures 0 <= Rescale(p, ow, oh, nw, nh).x <= nw
    ensures 0 <= Rescale(p, ow, oh, nw, nh).y <= nh
  {
    var q := Normalize(p, ow, oh);
    FractionWithin(p.x as real, ow as real);
    FractionWithin(p.y as real, oh as real);
    DenormalizeWithin(q, nw, nh);
  }
}
