/**
 * Boxes and the two pure helpers of the cut-paste augmentation:
 * the rectangle overlap test and the same-class anchor lookup.
 */
module Geometry {
  import opened Wrappers

  /** A rectangle `(x_min, y_min, x_max, y_max)` in pixel coordinates, as `check_overlap` unpacks it. */
  datatype Rect = Rect(xMin: int, yMin: int, xMax: int, yMax: int)

  /** A labelled box, the tuple `(class_id, x1, y1, x2, y2)`. */
  datatype Box = Box(cls: int, x1: int, y1: int, x2: int, y2: int)
  {
    /** `bbox[1:]`: the box without its class. */
    function Coords(): Rect { Rect(x1, y1, x2, y2) }
  }

  function Max(a: int, b: int): int { if a < b then b else a }
  function Min(a: int, b: int): int { if a < b then a else b }

  /** The rectangle has positive width and height. */
  predicate NonEmpty(r: Rect)
  {
    r.xMin < r.xMax && r.yMin < r.yMax
  }

  /** Pixel `(x, y)` lies in the half-open rectangle `r`. */
  predicate Covers(r: Rect, x: int, y: int)
  {
    r.xMin <= x < r.xMax && r.yMin <= y < r.yMax
  }

  /**
   * `check_overlap`: false as soon as the rectangles are separated on one
   * axis (touching edges count as separated), true otherwise. For
   * non-empty rectangles: the x-ranges and the y-ranges both meet in an
   * interval of positive length.
   */
  function CheckOverlap(a: Rect, b: Rect): (r: bool)
    ensures NonEmpty(a) && NonEmpty(b) ==>
              (r <==> (Max(a.xMin, b.xMin) < Min(a.xMax, b.xMax)
                        && Max(a.yMin, b.yMin) < Min(a.yMax, b.yMax)))
  {
    if a.xMin >= b.xMax || a.xMax <= b.xMin || a.yMin >= b.yMax || a.yMax <= b.yMin then false
    else true
  }

  /** The overlap test does not depend on the order of its arguments. */
  lemma OverlapSymmetric(a: Rect, b: Rect)
    ensures CheckOverlap(a, b) == CheckOverlap(b, a)
  {
  }

  /** Two non-empty rectangles overlap exactly when some pixel lies in both. */
  lemma OverlapIffSharedPixel(a: Rect, b: Rect)
    requires NonEmpty(a) && NonEmpty(b)
    ensures CheckOverlap(a, b) <==> exists x, y :: Covers(a, x, y) && Covers(b, x, y)
  {
    if CheckOverlap(a, b) {
      var x, y := Max(a.xMin, b.xMin), Max(a.yMin, b.yMin);
      assert Covers(a, x, y) && Covers(b, x, y);
    }
  }

  /** Rectangles that only share an edge do not overlap. */
  lemma SharedEdgeIsNoOverlap(a: Rect, b: Rect)
    requires a.xMax == b.xMin || a.yMax == b.yMin
    ensures !CheckOverlap(a, b) && !CheckOverlap(b, a)
  {
  }

  /** `box` overlaps none of `boxes`. */
  predicate ClearOf(box: Rect, boxes: seq<Box>)
  {
    forall n :: 0 <= n < |boxes| ==> !CheckOverlap(box, boxes[n].Coords())
  }

  /**
   * The value `find_matching_class_height` computes from a matching box:
   * `(bbox[2] + bbox[3]) // 2`, and on `(class, x1, y1, x2, y2)` indices 2
   * and 3 are `y1` and `x2`. Dafny's `/` by 2 is floor division, like `//`.
   */
  function AnchorOf(b: Box): int
  {
    (b.y1 + b.x2) / 2
  }

  /**
   * `find_matching_class_height`: the anchor of the first box of class `cls`,
   * or None when no box has that class.
   */
  function FindMatchingClassHeight(boxes: seq<Box>, cls: int): (r: Option<int>)
    ensures r.None? <==> forall n :: 0 <= n < |boxes| ==> boxes[n].cls != cls
    ensures r.Some? ==> exists n :: 0 <= n < |boxes| && boxes[n].cls == cls
                          && (forall m :: 0 <= m < n ==> boxes[m].cls != cls)
                          && r.value == AnchorOf(boxes[n])
  {
    if boxes == [] then None
    else if boxes[0].cls == cls then Some(AnchorOf(boxes[0]))
    else
      var r := FindMatchingClassHeight(boxes[1..], cls);
      assert r.Some? ==> exists n :: 1 <= n < |boxes| && boxes[n].cls == cls
                          && (forall m :: 0 <= m < n ==> boxes[m].cls != cls)
                          && r.value == AnchorOf(boxes[n]) by {
        if r.Some? {
          var n :| 0 <= n < |boxes[1..]| && boxes[1..][n].cls == cls
                   && (forall m :: 0 <= m < n ==> boxes[1..][m].cls != cls)
                   && r.value == AnchorOf(boxes[1..][n]);
          assert boxes[n + 1] == boxes[1..][n];
          assert forall m :: 1 <= m < n + 1 ==> boxes[m] == boxes[1..][m - 1];
        }
      }
      r
  }

  /**
   * The anchored vertical placement: centre the patch of height `ph` on
   * `anchor`, no higher than row 0, then shift it up so that it ends at
   * row `height` at the latest. Returns `(new_y1, new_y2)`.
   */
  function AnchoredSpan(anchor: int, ph: int, height: int): (span: (int, int))
    requires ph >= 0
    ensures span.1 - span.0 == ph
    ensures span.1 <= height
    ensures 0 <= span.0 <==> ph <= height
    ensures ph <= height ==> span.0 == Min(Max(anchor - ph / 2, 0), height - ph)
    ensures ph > height ==> span == (height - ph, height)
  {
    var y1 := Max(0, anchor - ph / 2);
    var y2 := y1 + ph;
    if y2 > height then (y1 - (y2 - height), height) else (y1, y2)
  }
}
