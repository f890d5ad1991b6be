/** Intersection over union of two axis-aligned boxes (utils.py, intersection_over_union).
    A box reaches the routine as four numbers whose meaning depends on the box format:
    centre-x, centre-y, width, height for the midpoint format, or x1, y1, x2, y2 for the
    corners format. One pair of boxes is modelled; a batch is that computation mapped
    over a sequence of pairs. */
module Boxes {

  datatype Option<T> = None | Some(value: T)

  /** A value, or the failure the routine reports instead. */
  datatype Result<T, E> = Ok(value: T) | Err(error: E)

  /** The format name selects no decoding branch, so no corner variable is bound. */
  datatype FormatError = UnknownBoxFormat(name: string)

  datatype BoxFormat = Midpoint | Corners

  /** The four numbers of a box, in the order the caller wrote them. */
  datatype Box = Box(a: real, b: real, c: real, d: real)

  /** A box decoded to its corners: left, top, right, bottom. */
  datatype Rect = Rect(x1: real, y1: real, x2: real, y2: real)

  /** The smoothing constant 1e-6 added to every denominator. */
  const Epsilon: real := 0.000001

  /** The default box format of intersection_over_union, spelled as in the code. */
  const DefaultFormat: string := "mindpoint"

  /** The two string tests that select a decoding branch. */
  function ParseFormat(name: string): (f: Option<BoxFormat>)
    ensures f == Some(Midpoint) <==> name == "mindpoint"
    ensures f == Some(Corners) <==> name == "corners"
    ensures f == None <==> name != "mindpoint" && name != "corners"
  {
    if name == "mindpoint" then Some(Midpoint)
    else if name == "corners" then Some(Corners)
    else None
  }

  /** The default spelling is accepted as the midpoint format, while the spelling
      "midpoint" used by the documentation of the other routines is rejected. */
  lemma FormatSpellings()
    ensures ParseFormat(DefaultFormat) == Some(Midpoint)
    ensures ParseFormat("midpoint") == None
    ensures ParseFormat("corners") == Some(Corners)
  {
  }

  /** Decodes one box to its corners. */
  function Decode(f: BoxFormat, box: Box): (r: Rect)
    ensures f == Corners ==> r == Rect(box.a, box.b, box.c, box.d)
    ensures f == Midpoint ==>
      r.x2 - r.x1 == box.c && r.y2 - r.y1 == box.d &&
      r.x1 + r.x2 == 2.0 * box.a && r.y1 + r.y2 == 2.0 * box.b
  {
    match f
    case Midpoint =>
      Rect(box.a - box.c / 2.0, box.b - box.d / 2.0, box.a + box.c / 2.0, box.b + box.d / 2.0)
    case Corners =>
      Rect(box.a, box.b, box.c, box.d)
  }

  function Max(x: real, y: real): real { if x >= y then x else y }

  function Min(x: real, y: real): real { if x <= y then x else y }

  /** Tensor clamp(0): negative values become zero. */
  function Clamp0(x: real): real { if x < 0.0 then 0.0 else x }

  function Abs(x: real): real { if x < 0.0 then -x else x }

  /** The area of a box, with abs guarding against reversed corners. */
  function Area(r: Rect): real
  {
    Abs((r.x2 - r.x1) * (r.y2 - r.y1))
  }

  /** A box whose corners are in order. */
  predicate WellFormed(r: Rect)
  {
    r.x1 <= r.x2 && r.y1 <= r.y2
  }

  /** Two boxes that share no interior point. */
  predicate Disjoint(p: Rect, q: Rect)
  {
    p.x2 <= q.x1 || q.x2 <= p.x1 || p.y2 <= q.y1 || q.y2 <= p.y1
  }

  /** The overlap area: the rectangle between the larger left/top edges and the
      smaller right/bottom edges, each side clamped at zero. */
  function Intersection(p: Rect, q: Rect): real
  {
    Clamp0(Min(p.x2, q.x2) - Max(p.x1, q.x1)) * Clamp0(Min(p.y2, q.y2) - Max(p.y1, q.y1))
  }

  /** The overlap area as the code writes it, with max also taken of the
      right/bottom edges. */
  function IntersectionAsWritten(p: Rect, q: Rect): real
  {
    Clamp0(Max(p.x2, q.x2) - Max(p.x1, q.x1)) * Clamp0(Max(p.y2, q.y2) - Max(p.y1, q.y1))
  }

  lemma MulMonotone(a: real, b: real, c: real, d: real)
    requires 0.0 <= a <= b && 0.0 <= c <= d
    ensures 0.0 <= a * c <= b * d
  {
    assert a * c <= b * c;
    assert b * c <= b * d;
  }

  lemma AbsMul(x: real, y: real)
    ensures Abs(x * y) == Abs(x) * Abs(y)
  {
    if x < 0.0 && y < 0.0 {
      assert x * y == (-x) * (-y);
    } else if x < 0.0 {
      assert -(x * y) == (-x) * y;
    } else if y < 0.0 {
      assert -(x * y) == x * (-y);
    }
  }

  /** The clamped overlap along one axis never exceeds either box's extent. */
  lemma SideWithin(lo1: real, hi1: real, lo2: real, hi2: real)
    ensures 0.0 <= Clamp0(Min(hi1, hi2) - Max(lo1, lo2)) <= Abs(hi1 - lo1)
    ensures Clamp0(Min(hi1, hi2) - Max(lo1, lo2)) <= Abs(hi2 - lo2)
  {
  }

  /** A product of two clamped sides within two extents stays within their area. */
  lemma ProductWithin(w: real, h: real, x: real, y: real)
    requires 0.0 <= w <= Abs(x) && 0.0 <= h <= Abs(y)
    ensures 0.0 <= w * h <= Abs(x * y)
  {
    MulMonotone(w, Abs(x), h, Abs(y));
    AbsMul(x, y);
  }

  /** The overlap is non-negative and no larger than the area of the first box. */
  lemma IntersectionWithinFirst(p: Rect, q: Rect)
    ensures 0.0 <= Intersection(p, q) <= Area(p)
  {
    var w := Clamp0(Min(p.x2, q.x2) - Max(p.x1, q.x1));
    var h := Clamp0(Min(p.y2, q.y2) - Max(p.y1, q.y1));
    SideWithin(p.x1, p.x2, q.x1, q.x2);
    SideWithin(p.y1, p.y2, q.y1, q.y2);
    ProductWithin(w, h, p.x2 - p.x1, p.y2 - p.y1);
  }

  /** The overlap is non-negative and no larger than the area of either box. */
  lemma IntersectionWithinAreas(p: Rect, q: Rect)
    ensures 0.0 <= Intersection(p, q)
    ensures Intersection(p, q) <= Area(p) && Intersection(p, q) <= Area(q)
  {
    IntersectionWithinFirst(p, q);
    IntersectionWithinFirst(q, p);
    IntersectionSymmetric(p, q);
  }

  /** The overlap does not depend on the order of the boxes. */
  lemma IntersectionSymmetric(p: Rect, q: Rect)
    ensures Intersection(p, q) == Intersection(q, p)
  {
    assert Min(p.x2, q.x2) == Min(q.x2, p.x2) && Max(p.x1, q.x1) == Max(q.x1, p.x1);
    assert Min(p.y2, q.y2) == Min(q.y2, p.y2) && Max(p.y1, q.y1) == Max(q.y1, p.y1);
  }

  /** The denominator of the ratio: both areas, less the overlap, plus epsilon. */
  function Union(p: Rect, q: Rect): (u: real)
    ensures u >= Epsilon
    ensures u > Intersection(p, q)
  {
    IntersectionWithinAreas(p, q);
    Area(p) + Area(q) - Intersection(p, q) + Epsilon
  }

  lemma RatioBelowOne(x: real, y: real)
    requires 0.0 <= x < y
    ensures 0.0 <= x / y < 1.0
  {
  }

  /** Intersection over union of two decoded boxes; it lies in [0, 1). */
  function IouOfRects(p: Rect, q: Rect): (r: real)
    ensures 0.0 <= r < 1.0
  {
    IntersectionWithinAreas(p, q);
    RatioBelowOne(Intersection(p, q), Union(p, q));
    Intersection(p, q) / Union(p, q)
  }

  /** Intersection over union of two boxes given in the same format. */
  function Iou(f: BoxFormat, pred: Box, target: Box): (r: real)
    ensures 0.0 <= r < 1.0
  {
    IouOfRects(Decode(f, pred), Decode(f, target))
  }

  /** intersection_over_union with its format argument as a string, by default
      "mindpoint": an unknown format fails instead of producing a value. */
  function IntersectionOverUnion(pred: Box, target: Box, format: string := DefaultFormat): (r: Result<real, FormatError>)
    ensures r.Err? <==> ParseFormat(format).None?
    ensures r.Err? ==> r.error == UnknownBoxFormat(format)
    ensures r.Ok? ==> 0.0 <= r.value < 1.0
  {
    match ParseFormat(format)
    case None => Err(UnknownBoxFormat(format))
    case Some(f) => Ok(Iou(f, pred, target))
  }

  /** Swapping the two boxes gives the same value. */
  lemma IouSymmetric(f: BoxFormat, a: Box, b: Box)
    ensures Iou(f, a, b) == Iou(f, b, a)
  {
    var p, q := Decode(f, a), Decode(f, b);
    IntersectionSymmetric(p, q);
    assert Union(p, q) == Union(q, p);
    assert IouOfRects(p, q) == IouOfRects(q, p);
  }

  /** Boxes without a common interior point have intersection over union 0. */
  lemma IouDisjoint(p: Rect, q: Rect)
    requires Disjoint(p, q)
    ensures Intersection(p, q) == 0.0
    ensures IouOfRects(p, q) == 0.0
  {
  }

  /** Called without a format, the routine reads both boxes in the midpoint
      format and never fails. */
  lemma DefaultFormatIou(pred: Box, target: Box)
    ensures IntersectionOverUnion(pred, target) == Ok(Iou(Midpoint, pred, target))
  {
    FormatSpellings();
  }

  /** A well-formed box compared with itself scores area / (area + epsilon),
      which falls short of 1 by epsilon / (area + epsilon). */
  lemma IouSelf(p: Rect)
    requires WellFormed(p)
    ensures Intersection(p, p) == Area(p)
    ensures IouOfRects(p, p) == Area(p) / (Area(p) + Epsilon)
  {
    MulMonotone(0.0, p.x2 - p.x1, 0.0, p.y2 - p.y1);
  }

  /** A box with reversed corners overlaps nothing, itself included. */
  lemma IouReversed(p: Rect, q: Rect)
    requires p.x2 < p.x1 || p.y2 < p.y1
    ensures IouOfRects(p, q) == 0.0
  {
  }

  /** A midpoint box decodes to a well-formed box exactly when its width and
      height are non-negative, and then its area is width times height. */
  lemma MidpointArea(box: Box)
    ensures WellFormed(Decode(Midpoint, box)) <==> box.c >= 0.0 && box.d >= 0.0
    ensures box.c >= 0.0 && box.d >= 0.0 ==> Area(Decode(Midpoint, box)) == box.c * box.d
  {
    var r := Decode(Midpoint, box);
    if box.c >= 0.0 && box.d >= 0.0 {
      MulMonotone(0.0, box.c, 0.0, box.d);
    }
  }

  /** A box given by centre and size scores as the same box given by its corners. */
  lemma FormatsAgree(pred: Box, target: Box)
    ensures
      var p, q := Decode(Midpoint, pred), Decode(Midpoint, target);
      Iou(Midpoint, pred, target) == Iou(Corners, Box(p.x1, p.y1, p.x2, p.y2), Box(q.x1, q.y1, q.x2, q.y2))
  {
  }

  /** The ratio of the code as written: the max-edge overlap over the two areas
      less that overlap, plus epsilon. The division is left to the caller, since
      this denominator can be zero or negative. */
  function AsWrittenDenominator(p: Rect, q: Rect): real
  {
    Area(p) + Area(q) - IntersectionAsWritten(p, q) + Epsilon
  }

  /** The area of the unit square and of two other boxes used below. */
  lemma SampleAreas()
    ensures Area(Rect(0.0, 0.0, 1.0, 1.0)) == 1.0
    ensures Area(Rect(2.0, 2.0, 3.0, 3.0)) == 1.0
    ensures Area(Rect(0.0, 0.0, 10.0, 10.0)) == 100.0
  {
  }

  /** With max on the right/bottom edges, two disjoint unit boxes overlap by a
      whole unit and score 1 / (1 + epsilon) instead of 0. */
  lemma AsWrittenDisjointOverlap()
    ensures Disjoint(Rect(0.0, 0.0, 1.0, 1.0), Rect(2.0, 2.0, 3.0, 3.0))
    ensures IouOfRects(Rect(0.0, 0.0, 1.0, 1.0), Rect(2.0, 2.0, 3.0, 3.0)) == 0.0
    ensures IntersectionAsWritten(Rect(0.0, 0.0, 1.0, 1.0), Rect(2.0, 2.0, 3.0, 3.0)) == 1.0
    ensures AsWrittenDenominator(Rect(0.0, 0.0, 1.0, 1.0), Rect(2.0, 2.0, 3.0, 3.0)) == 1.0 + Epsilon
  {
    SampleAreas();
    assert IntersectionAsWritten(Rect(0.0, 0.0, 1.0, 1.0), Rect(2.0, 2.0, 3.0, 3.0)) == 1.0;
    IouDisjoint(Rect(0.0, 0.0, 1.0, 1.0), Rect(2.0, 2.0, 3.0, 3.0));
  }

  /** With max on the right/bottom edges, a unit box inside a 10x10 box overlaps
      it by 100, more than the unit box's own area; the min version gives 1. */
  lemma AsWrittenNestedOverlap()
    ensures IntersectionAsWritten(Rect(0.0, 0.0, 1.0, 1.0), Rect(0.0, 0.0, 10.0, 10.0)) == 100.0
    ensures IntersectionAsWritten(Rect(0.0, 0.0, 1.0, 1.0), Rect(0.0, 0.0, 10.0, 10.0)) > Area(Rect(0.0, 0.0, 1.0, 1.0))
    ensures Intersection(Rect(0.0, 0.0, 1.0, 1.0), Rect(0.0, 0.0, 10.0, 10.0)) == 1.0
  {
    SampleAreas();
    assert IntersectionAsWritten(Rect(0.0, 0.0, 1.0, 1.0), Rect(0.0, 0.0, 10.0, 10.0)) == 100.0;
  }
}
