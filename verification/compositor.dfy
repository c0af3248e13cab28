/** `apply_all_masks` (main.py): every active polygon is filled into one
    single-channel mask and the frame is ANDed with itself under it, so a
    pixel survives when it lies inside at least one polygon and becomes
    black otherwise. Rasterization itself (which pixels `cv2.fillPoly`
    paints for a polygon) is the parameter `inside`. */
module Compositor {
  import opened Outcome
  import opened Coordinates
  import opened PlayerMasks

  /** One pixel's channel values. */
  type Pixel = seq<int>

  /** Rows of columns of pixels, as a `height x width x channels` array. */
  type Frame = seq<seq<Pixel>>

  /** A single-channel `height x width` array, as `np.zeros(..., uint8)`. */
  type Plane = seq<seq<int>>

  /** `inside(polygon, x, y)`: `cv2.fillPoly` paints pixel column `x`, row `y`. */
  type Fill = (seq<Point>, int, int) -> bool

  /** The pixel lies inside one of the first `n` polygons. */
  predicate CoveredBy(masks: seq<Mask>, n: nat, x: int, y: int, inside: Fill)
    requires n <= |masks|
  {
    n > 0 && (CoveredBy(masks, n - 1, x, y, inside) || inside(masks[n - 1].points, x, y))
  }

  /** The pixel lies inside one of the polygons. */
  predicate Covered(masks: seq<Mask>, x: int, y: int, inside: Fill) {
    CoveredBy(masks, |masks|, x, y, inside)
  }

  /** Coverage is the union of the polygons: some polygon contains the pixel. */
  lemma {:induction false} CoveredByIsUnion(masks: seq<Mask>, n: nat, x: int, y: int, inside: Fill)
    requires n <= |masks|
    ensures CoveredBy(masks, n, x, y, inside) <==> exists i :: 0 <= i < n && inside(masks[i].points, x, y)
  {
    if n > 0 {
      CoveredByIsUnion(masks, n - 1, x, y, inside);
    }
  }

  /** Same as `CoveredByIsUnion`, for all the polygons. */
  lemma CoveredIsUnion(masks: seq<Mask>, x: int, y: int, inside: Fill)
    ensures Covered(masks, x, y, inside) <==> exists i :: 0 <= i < |masks| && inside(masks[i].points, x, y)
  {
    CoveredByIsUnion(masks, |masks|, x, y, inside);
  }

  /** A pixel with every channel zero. */
  function Black(px: Pixel): (r: Pixel)
    ensures |r| == |px| && forall c :: 0 <= c < |r| ==> r[c] == 0
  {
    seq(|px|, _ => 0)
  }

  /** The array has `h` rows of `w` columns. */
  predicate Shaped<T>(a: seq<seq<T>>, w: int, h: int) {
    |a| == h && forall y :: 0 <= y < h ==> |a[y]| == w
  }

  /** `cv2.fillPoly(plane, [points], 255)`: the painted pixels become 255,
      the others keep their value. */
  function FillPoly(plane: Plane, w: nat, h: nat, points: seq<Point>, inside: Fill): (r: Plane)
    requires Shaped(plane, w, h)
    ensures Shaped(r, w, h)
    ensures forall y, x :: 0 <= y < h && 0 <= x < w ==>
      r[y][x] == (if inside(points, x, y) then 255 else plane[y][x])
  {
    seq(h, (y: int) requires 0 <= y < h =>
      seq(w, (x: int) requires 0 <= x < w => if inside(points, x, y) then 255 else plane[y][x]))
  }

  /** The combined mask: 255 on the union of the polygons, 0 elsewhere. */
  method CombinedMask(masks: seq<Mask>, w: nat, h: nat, inside: Fill) returns (plane: Plane)
    ensures Shaped(plane, w, h)
    ensures forall y, x :: 0 <= y < h && 0 <= x < w ==>
      plane[y][x] == (if Covered(masks, x, y, inside) then 255 else 0)
  {
    plane := seq(h, _ => seq(w, _ => 0));
    var i := 0;
    while i < |masks|
      invariant 0 <= i <= |masks|
      invariant Shaped(plane, w, h)
      invariant forall y, x :: 0 <= y < h && 0 <= x < w ==>
        plane[y][x] == (if CoveredBy(masks, i, x, y, inside) then 255 else 0)
    {
      plane := FillPoly(plane, w, h, masks[i].points, inside);
      i := i + 1;
    }
  }

  /** `cv2.bitwise_and(frame, frame, mask=plane)`: `p & p == p` where the
      mask is non-zero, every channel zero where it is zero. */
  function AndUnder(frame: Frame, plane: Plane, w: nat, h: nat): (r: Frame)
    requires Shaped(frame, w, h) && Shaped(plane, w, h)
    ensures Shaped(r, w, h)
    ensures forall y, x :: 0 <= y < h && 0 <= x < w ==>
      r[y][x] == (if plane[y][x] != 0 then frame[y][x] else Black(frame[y][x]))
  {
    seq(h, (y: int) requires 0 <= y < h =>
      seq(w, (x: int) requires 0 <= x < w => if plane[y][x] != 0 then frame[y][x] else Black(frame[y][x])))
  }

  /** Reference definition of compositing, pixel by pixel. */
  ghost predicate Composites(out: Frame, frame: Frame, masks: seq<Mask>, w: nat, h: nat, inside: Fill)
    requires Shaped(frame, w, h)
  {
    && Shaped(out, w, h)
    && forall y, x :: 0 <= y < h && 0 <= x < w ==>
         out[y][x] == (if Covered(masks, x, y, inside) then frame[y][x] else Black(frame[y][x]))
  }

  /** `apply_all_masks`: with masking off or no masks the frame is returned
      unchanged; otherwise a pixel is kept when some polygon covers it and
      is black in every channel when none does. `None` is the OpenCV error
      raised when the frame is not `height x width`. */
  method ApplyAllMasks(p: Player, frame: Frame, inside: Fill) returns (out: Option<Frame>)
    ensures (|p.masks| == 0 || !p.applyMask) ==> out == Some(frame)
    ensures |p.masks| > 0 && p.applyMask ==>
      (out.Some? <==> p.width >= 0 && p.height >= 0 && Shaped(frame, p.width, p.height))
    ensures |p.masks| > 0 && p.applyMask && out.Some? ==>
      Composites(out.value, frame, p.masks, p.width, p.height, inside)
  {
    if |p.masks| == 0 || !p.applyMask {
      return Some(frame);
    }
    if p.width < 0 || p.height < 0 || !Shaped(frame, p.width, p.height) {
      return None;
    }
    var plane := CombinedMask(p.masks, p.width, p.height, inside);
    out := Some(AndUnder(frame, plane, p.width, p.height));
  }

  /** Compositing is idempotent: masking an already masked frame with the
      same polygons changes nothing. */
  lemma CompositeIdempotent(once: Frame, twice: Frame, frame: Frame, masks: seq<Mask>, w: nat, h: nat, inside: Fill)
    requires Shaped(frame, w, h)
    requires Composites(once, frame, masks, w, h, inside)
    requires Composites(twice, once, masks, w, h, inside)
    ensures twice == once
  {
    forall y | 0 <= y < h
      ensures twice[y] == once[y]
    {
      forall x | 0 <= x < w
        ensures twice[y][x] == once[y][x]
      {
        if !Covered(masks, x, y, inside) {
          assert once[y][x] == Black(frame[y][x]);
        }
      }
    }
  }
}
