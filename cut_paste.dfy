/**
 * `cut_paste_augmentation`: every labelled box of the source image is
 * copied into the destination image at a position that overlaps no box
 * already there, and the new box is appended to the destination's list,
 * so that later patches avoid it too.
 */
module CutPaste {
  import opened Wrappers
  import opened Geometry
  import opened Imaging
  import opened RandomSource

  /** `max_attempts`: horizontal positions tried per patch. */
  const MaxAttempts: nat := 100

  /** The destination's `bboxes2`: a Python list the augmentation appends to in place. */
  class BoxList {
    var items: seq<Box>

    constructor (items: seq<Box>)
      ensures this.items == items
    {
      this.items := items;
    }

    /** `list.append`. */
    method Append(b: Box)
      modifies this
      ensures items == old(items) + [b]
    {
      items := items + [b];
    }
  }

  /** The exceptions that end the whole call. */
  datatype PlacementError =
    | EmptyVerticalRange    // `randint(0, H - ph)` with `ph >= H`
    | EmptyHorizontalRange  // `randint(0, W - pw)` with `pw >= W`
    | RegionShapeMismatch   // anchored patch taller than the image: slice and patch differ in shape

  /** What happened to one source box. */
  datatype PatchOutcome = Placed(box: Box) | Skipped | Failed(error: PlacementError)

  /** The box lies inside a `height` x `width` image and has positive size. */
  predicate InsideImage(b: Box, height: int, width: int)
  {
    0 <= b.x1 < b.x2 <= width && 0 <= b.y1 < b.y2 <= height
  }

  /** `target` is a copy of `source`: same class, width and height. */
  predicate SameShape(source: Box, target: Box)
  {
    && target.cls == source.cls
    && target.x2 - target.x1 == source.x2 - source.x1
    && target.y2 - target.y1 == source.y2 - source.y1
  }

  /**
   * The inner loop over `bboxes2`: true as soon as one existing box
   * overlaps the candidate.
   */
  method OverlapsAny(candidate: Rect, boxes: seq<Box>) returns (overlap: bool)
    ensures overlap <==> !ClearOf(candidate, boxes)
    ensures overlap <==> exists n :: 0 <= n < |boxes| && CheckOverlap(candidate, boxes[n].Coords())
  {
    overlap := false;
    var n := 0;
    while n < |boxes|
      invariant 0 <= n <= |boxes|
      invariant forall m :: 0 <= m < n ==> !CheckOverlap(candidate, boxes[m].Coords())
    {
      if CheckOverlap(candidate, boxes[n].Coords()) {
        overlap := true;
        break;
      }
      n := n + 1;
    }
  }

  /** The first row of the patch: the anchored span, or the first draw of `randint(0, H - ph)`. */
  ghost function VerticalStart(anchor: Option<int>, ph: int, height: int, draws: nat -> nat, call: nat): int
    requires ph >= 0
    requires anchor.None? ==> ph < height
  {
    match anchor
    case Some(m) => AnchoredSpan(m, ph, height).0
    case None => draws(call) % (height - ph)
  }

  /** The candidate box the horizontal draw number `call` proposes. */
  ghost function Candidate(src: Box, y1: int, width: int, draws: nat -> nat, call: nat): Box
    requires src.x2 - src.x1 < width
  {
    var x1 := draws(call) % (width - (src.x2 - src.x1));
    Box(src.cls, x1, y1, x1 + (src.x2 - src.x1), y1 + (src.y2 - src.y1))
  }

  /** Every candidate drawn by calls `from .. to - 1` overlaps one of `boxes`. */
  ghost predicate AllCollide(src: Box, y1: int, width: int, draws: nat -> nat, from: nat, to: nat, boxes: seq<Box>)
    requires src.x2 - src.x1 < width
  {
    forall c :: from <= c < to ==> !ClearOf(Candidate(src, y1, width, draws, c).Coords(), boxes)
  }

  /** Index of the first horizontal draw: after the vertical draw, when there is one. */
  ghost function FirstTry(anchor: Option<int>, calls: nat): nat
  {
    if anchor.None? then calls + 1 else calls
  }

  /**
   * The row the patch starts on: with an anchor, the anchored span, clamped
   * into the image; without one, `randint(0, H - ph)`, which raises when
   * the patch is at least as tall as the image.
   */
  method ChooseRow(anchor: Option<int>, ph: int, height: int, rng: RandomState) returns (row: Option<int>)
    requires ph > 0
    modifies rng
    ensures row.None? <==> anchor.None? && height <= ph
    ensures row.Some? ==> row.value == VerticalStart(anchor, ph, height, rng.draws, old(rng.calls))
    ensures row.Some? && anchor.None? ==> 0 <= row.value < height - ph
    ensures row.Some? ==> rng.calls == FirstTry(anchor, old(rng.calls))
    ensures row.None? ==> rng.calls == old(rng.calls)
  {
    if anchor.Some? {
      row := Some(AnchoredSpan(anchor.value, ph, height).0);
    } else {
      row := rng.RandInt(0, height - ph);
    }
  }

  /** How the search for a free column ended. */
  datatype Search = Found(x1: int) | Exhausted | EmptyRange

  /**
   * The search of the attempt loop: up to `MaxAttempts` random columns
   * `randint(0, W - pw)` for a patch starting on row `y1`, stopping at the
   * first candidate that overlaps none of `boxes`.
   */
  method FindColumn(src: Box, y1: int, width: int, boxes: seq<Box>, rng: RandomState) returns (r: Search)
    modifies rng
    ensures r.EmptyRange? <==> width <= src.x2 - src.x1
    ensures r.EmptyRange? ==> rng.calls == old(rng.calls)
    ensures !r.EmptyRange? ==>
              && src.x2 - src.x1 < width
              && old(rng.calls) < rng.calls <= old(rng.calls) + MaxAttempts
              && (r.Exhausted? ==> rng.calls == old(rng.calls) + MaxAttempts)
              && AllCollide(src, y1, width, rng.draws, old(rng.calls),
                            if r.Exhausted? then rng.calls else rng.calls - 1, boxes)
    ensures r.Found? ==>
              var c := Candidate(src, y1, width, rng.draws, rng.calls - 1);
              c.x1 == r.x1 && 0 <= c.x1 && c.x2 < width && ClearOf(c.Coords(), boxes)
  {
    var pw := src.x2 - src.x1;
    var attempt := 0;
    while attempt < MaxAttempts
      invariant 0 <= attempt <= MaxAttempts
      invariant rng.calls == old(rng.calls) + attempt
      invariant attempt > 0 ==> pw < width
      invariant pw < width ==> AllCollide(src, y1, width, rng.draws, old(rng.calls), rng.calls, boxes)
    {
      var x := rng.RandInt(0, width - pw);
      if x.None? {
        return EmptyRange;
      }
      var candidate := Rect(x.value, y1, x.value + pw, y1 + (src.y2 - src.y1));
      assert candidate == Candidate(src, y1, width, rng.draws, rng.calls - 1).Coords();
      var overlap := OverlapsAny(candidate, boxes);
      if !overlap {
        return Found(x.value);
      }
      attempt := attempt + 1;
    }
    return Exhausted;
  }

  /** The boxes a patch outcome appends to `bboxes2`: the placed box, or none. */
  function Added(outcome: PatchOutcome): (boxes: seq<Box>)
    ensures |boxes| <= 1
    ensures outcome.Placed? ==> boxes == [outcome.box]
    ensures !outcome.Placed? ==> boxes == []
  {
    if outcome.Placed? then [outcome.box] else []
  }

  /**
   * Why source box `src` had `outcome`, when it was offered to a
   * destination of `height` x `width` holding `items` after `calls` draws,
   * and left `after` draws taken: a `randint` error exactly when its
   * range is empty; otherwise the row is the anchored span or the first
   * draw, every column drawn before the last collided with `items`, and a
   * skip used all `MaxAttempts` draws. The last candidate of a placement
   * or of a shape error is clear of `items`: a placed box lies inside the
   * image, while the shape error comes only from an anchored patch taller
   * than the image, whose row starts above the top.
   */
  ghost predicate Justified(src: Box, outcome: PatchOutcome, items: seq<Box>, draws: nat -> nat, calls: nat, after: nat,
                            height: int, width: int)
  {
    var anchor := FindMatchingClassHeight(items, src.cls);
    var ph, pw := src.y2 - src.y1, src.x2 - src.x1;
    && (outcome == Failed(EmptyVerticalRange) <==> anchor.None? && height <= ph)
    && (outcome == Failed(EmptyHorizontalRange) <==> !(anchor.None? && height <= ph) && width <= pw)
    && (outcome == Failed(RegionShapeMismatch) ==> anchor.Some? && ph > height)
    && (outcome.Placed? || outcome.Skipped? || outcome == Failed(RegionShapeMismatch) ==>
          && 0 <= ph && (anchor.None? ==> ph < height) && pw < width
          && (var y1 := VerticalStart(anchor, ph, height, draws, calls);
              var first := FirstTry(anchor, calls);
              && first < after <= first + MaxAttempts
              && (outcome.Skipped? ==> after == first + MaxAttempts)
              && AllCollide(src, y1, width, draws, first, if outcome.Skipped? then after else after - 1, items)
              && (outcome == Failed(RegionShapeMismatch) ==>
                    y1 < 0 && ClearOf(Candidate(src, y1, width, draws, after - 1).Coords(), items))
              && (outcome.Placed? ==>
                    var b := outcome.box;
                    && b == Candidate(src, y1, width, draws, after - 1)
                    && 0 <= b.x1 && b.x2 < width && 0 <= b.y1 && b.y2 <= height
                    && ClearOf(b.Coords(), items))))
  }

  /**
   * An anchored patch taller than the image whose every column collides is
   * skipped, not an error: with the 1 x 20 patch anchored on a 10 x 10 box
   * that fills the destination, every candidate overlaps that box.
   */
  lemma TallCollidingPatchSkipped(after: nat)
    ensures var src, items, draws := Box(0, 0, 0, 1, 20), [Box(0, 0, 0, 10, 10)], (c: nat) => 0;
            && !Justified(src, Failed(RegionShapeMismatch), items, draws, 0, after, 10, 10)
            && (Justified(src, Skipped, items, draws, 0, after, 10, 10) <==> after == MaxAttempts)
  {
    var src, items, draws := Box(0, 0, 0, 1, 20), [Box(0, 0, 0, 10, 10)], (c: nat) => 0;
    assert FindMatchingClassHeight(items, 0) == Some(5);
    var y1 := VerticalStart(Some(5), 20, 10, draws, 0);
    assert y1 == -10;
    forall c: nat
      ensures !ClearOf(Candidate(src, y1, 10, draws, c).Coords(), items)
    {
      assert Candidate(src, y1, 10, draws, c) == Box(0, 0, -10, 1, 10);
      assert CheckOverlap(Rect(0, -10, 1, 10), items[0].Coords());
    }
  }

  /**
   * One iteration of the loop over `bboxes1`: choose the row (anchored and
   * clamped, or random), then try up to `MaxAttempts` random columns; the
   * first candidate that overlaps no box of `bboxes2` is blended into
   * `img2` and appended to `bboxes2`. If every try collides, nothing changes.
   */
  method PlacePatch(image1: array2<Pixel>, src: Box, img2: array2<Pixel>, bboxes2: BoxList, alpha: real, rng: RandomState)
    returns (outcome: PatchOutcome)
    requires img2 != image1
    requires InsideImage(src, image1.Length0, image1.Length1)
    modifies img2, bboxes2, rng
    ensures Justified(src, outcome, old(bboxes2.items), rng.draws, old(rng.calls), rng.calls, img2.Length0, img2.Length1)
    ensures bboxes2.items == old(bboxes2.items) + Added(outcome)
    ensures outcome.Placed? ==>
              var anchor := FindMatchingClassHeight(old(bboxes2.items), src.cls);
              var ph := src.y2 - src.y1;
              && SameShape(src, outcome.box)
              && (anchor.Some? ==> (outcome.box.y1, outcome.box.y2) == AnchoredSpan(anchor.value, ph, img2.Length0))
              && (anchor.None? ==> outcome.box.y1 < img2.Length0 - ph)
    ensures !outcome.Placed? ==>
              forall i, j :: 0 <= i < img2.Length0 && 0 <= j < img2.Length1 ==> img2[i, j] == old(img2[i, j])
    ensures outcome.Placed? ==>
              var b := outcome.box;
              forall i, j :: 0 <= i < img2.Length0 && 0 <= j < img2.Length1 ==>
                img2[i, j] == if Covers(b.Coords(), j, i)
                              then Blend(old(img2[i, j]), image1[src.y1 + i - b.y1, src.x1 + j - b.x1], alpha)
                              else old(img2[i, j])
  {
    outcome := ChoosePlacement(src, bboxes2.items, img2.Length0, img2.Length1, rng);
    ghost var after, draws := rng.calls, rng.draws;
    assert Justified(src, outcome, old(bboxes2.items), draws, old(rng.calls), after, img2.Length0, img2.Length1);
    if outcome.Placed? {
      BlendRegion(img2, image1, src.y1, src.x1, outcome.box.Coords(), alpha);
      bboxes2.Append(outcome.box);
    }
    assert rng.calls == after && rng.draws == draws;
  }

  /**
   * The decisions of one turn, which only draw random numbers: the row
   * (anchored, or the first draw), then the column search, then the
   * outcome. Python blends and appends as soon as it finds the clear
   * candidate; nothing is drawn after that, so deciding first is the same.
   */
  method ChoosePlacement(src: Box, items: seq<Box>, height: int, width: int, rng: RandomState)
    returns (outcome: PatchOutcome)
    requires src.y1 < src.y2
    modifies rng
    ensures Justified(src, outcome, items, rng.draws, old(rng.calls), rng.calls, height, width)
    ensures outcome.Placed? ==>
              var b := outcome.box;
              var anchor := FindMatchingClassHeight(items, src.cls);
              var ph := src.y2 - src.y1;
              && SameShape(src, b)
              && 0 <= b.x1 && b.x2 < width && 0 <= b.y1 && b.y2 <= height
              && (anchor.Some? ==> (b.y1, b.y2) == AnchoredSpan(anchor.value, ph, height))
              && (anchor.None? ==> b.y1 < height - ph)
  {
    var anchor := FindMatchingClassHeight(items, src.cls);
    var ph, pw := src.y2 - src.y1, src.x2 - src.x1;
    var row := ChooseRow(anchor, ph, height, rng);
    if row.None? {
      return Failed(EmptyVerticalRange);
    }
    var y1 := row.value;
    ghost var mid := rng.calls;
    var search := FindColumn(src, y1, width, items, rng);
    outcome := match search
      case EmptyRange => Failed(EmptyHorizontalRange)
      case Exhausted => Skipped
      case Found(x1) =>
        if y1 < 0 then Failed(RegionShapeMismatch) else Placed(Box(src.cls, x1, y1, x1 + pw, y1 + ph));
    SearchJustified(src, search, outcome, items, rng.draws, old(rng.calls), mid, rng.calls, height, width, y1);
  }

  /**
   * The outcome `PlacePatch` draws from the row and the column search is
   * justified: an empty column range raises, 100 collisions skip, and the
   * first clear candidate is placed, or raises the shape error when its
   * row starts above the top of the image.
   */
  lemma SearchJustified(src: Box, search: Search, outcome: PatchOutcome, items: seq<Box>, draws: nat -> nat,
                        calls: nat, mid: nat, after: nat, height: int, width: int, y1: int)
    requires var anchor := FindMatchingClassHeight(items, src.cls);
             var ph := src.y2 - src.y1;
             && ph > 0 && !(anchor.None? && height <= ph)
             && y1 == VerticalStart(anchor, ph, height, draws, calls)
             && (anchor.None? ==> 0 <= y1 < height - ph)
             && (anchor.Some? ==> y1 + ph <= height)
             && mid == FirstTry(anchor, calls)
    requires var pw := src.x2 - src.x1;
             && (search.EmptyRange? <==> width <= pw)
             && (!search.EmptyRange? ==>
                   && pw < width
                   && mid < after <= mid + MaxAttempts
                   && (search.Exhausted? ==> after == mid + MaxAttempts)
                   && AllCollide(src, y1, width, draws, mid, if search.Exhausted? then after else after - 1, items))
             && (search.Found? ==>
                   var c := Candidate(src, y1, width, draws, after - 1);
                   c.x1 == search.x1 && 0 <= c.x1 && c.x2 < width && ClearOf(c.Coords(), items))
    requires outcome == match search
                        case EmptyRange => Failed(EmptyHorizontalRange)
                        case Exhausted => Skipped
                        case Found(x1) =>
                          if y1 < 0 then Failed(RegionShapeMismatch)
                          else Placed(Box(src.cls, x1, y1, x1 + (src.x2 - src.x1), y1 + (src.y2 - src.y1)))
    ensures Justified(src, outcome, items, draws, calls, after, height, width)
  {
  }

  /** A pasted patch: which source box (by position in `bboxes1`) went to which target box. */
  datatype Placement = Placement(index: nat, source: Box, target: Box)

  /** The placement copies a source box lying inside `image1`. */
  predicate Fits(p: Placement, image1: array2<Pixel>)
  {
    InsideImage(p.source, image1.Length0, image1.Length1) && SameShape(p.source, p.target)
  }

  /** The boxes the placements appended, in order. */
  function Targets(ps: seq<Placement>): (boxes: seq<Box>)
    ensures |boxes| == |ps|
    ensures forall n :: 0 <= n < |ps| ==> boxes[n] == ps[n].target
  {
    seq(|ps|, n requires 0 <= n < |ps| => ps[n].target)
  }

  /** The patch pixel that lands on `(i, j)` (row, column) of the destination. */
  ghost function PatchPixel(image1: array2<Pixel>, p: Placement, i: int, j: int): Pixel
    reads image1
    requires Fits(p, image1)
    requires Covers(p.target.Coords(), j, i)
  {
    image1[p.source.y1 + i - p.target.y1, p.source.x1 + j - p.target.x1]
  }

  /** Pixel `(i, j)` of `base` after blending the placements' patches in order. */
  ghost function Painted(base: array2<Pixel>, image1: array2<Pixel>, ps: seq<Placement>, alpha: real, i: int, j: int): Pixel
    reads base, image1
    requires 0 <= i < base.Length0 && 0 <= j < base.Length1
    requires forall n :: 0 <= n < |ps| ==> Fits(ps[n], image1)
    decreases |ps|
  {
    if ps == [] then base[i, j]
    else
      var p := ps[|ps| - 1];
      var under := Painted(base, image1, ps[..|ps| - 1], alpha, i, j);
      if Covers(p.target.Coords(), j, i) then Blend(under, PatchPixel(image1, p, i, j), alpha) else under
  }

  /** Painting one more placement blends its patch over the pixels it covers and no others. */
  lemma PaintedStep(base: array2<Pixel>, image1: array2<Pixel>, ps: seq<Placement>, p: Placement, alpha: real, i: int, j: int)
    requires 0 <= i < base.Length0 && 0 <= j < base.Length1
    requires forall n :: 0 <= n < |ps| ==> Fits(ps[n], image1)
    requires Fits(p, image1)
    ensures Painted(base, image1, ps + [p], alpha, i, j) ==
              if Covers(p.target.Coords(), j, i)
              then Blend(Painted(base, image1, ps, alpha, i, j), PatchPixel(image1, p, i, j), alpha)
              else Painted(base, image1, ps, alpha, i, j)
  {
    assert (ps + [p])[..|ps|] == ps;
  }

  /** A pixel outside every target keeps its value. */
  lemma {:induction false} PaintedOutside(base: array2<Pixel>, image1: array2<Pixel>, ps: seq<Placement>, alpha: real, i: int, j: int)
    requires 0 <= i < base.Length0 && 0 <= j < base.Length1
    requires forall n :: 0 <= n < |ps| ==> Fits(ps[n], image1)
    requires forall n :: 0 <= n < |ps| ==> !Covers(ps[n].target.Coords(), j, i)
    ensures Painted(base, image1, ps, alpha, i, j) == base[i, j]
  {
    if ps != [] {
      PaintedOutside(base, image1, ps[..|ps| - 1], alpha, i, j);
    }
  }

  /**
   * When no two targets overlap, a pixel inside target `n` is blended once:
   * the original pixel with that target's patch.
   */
  lemma {:induction false} PaintedInside(base: array2<Pixel>, image1: array2<Pixel>, ps: seq<Placement>, alpha: real,
                                         i: int, j: int, n: nat)
    requires 0 <= i < base.Length0 && 0 <= j < base.Length1
    requires forall m :: 0 <= m < |ps| ==> Fits(ps[m], image1)
    requires forall m, l :: 0 <= m < l < |ps| ==> !CheckOverlap(ps[l].target.Coords(), ps[m].target.Coords())
    requires n < |ps| && Covers(ps[n].target.Coords(), j, i)
    ensures Painted(base, image1, ps, alpha, i, j) == Blend(base[i, j], PatchPixel(image1, ps[n], i, j), alpha)
  {
    var last := |ps| - 1;
    var prefix := ps[..last];
    if n == last {
      forall m | 0 <= m < last
        ensures !Covers(prefix[m].target.Coords(), j, i)
      {
        if Covers(ps[m].target.Coords(), j, i) {
          OverlapIffSharedPixel(ps[last].target.Coords(), ps[m].target.Coords());
          assert false;
        }
      }
      PaintedOutside(base, image1, prefix, alpha, i, j);
    } else {
      if Covers(ps[last].target.Coords(), j, i) {
        OverlapIffSharedPixel(ps[last].target.Coords(), ps[n].target.Coords());
        assert false;
      }
      PaintedInside(base, image1, prefix, alpha, i, j, n);
    }
  }

  /**
   * `cut_paste_augmentation(image1, bboxes1, image2, bboxes2, alpha)`: each
   * source box in order is offered to `PlacePatch` on a copy of `image2`.
   * `bboxes2` is appended to in place and returned with the blended copy;
   * `image1` and `image2` are only read. An exception (an empty `randint`
   * range or a shape mismatch) ends the call, and the boxes appended before
   * it stay in `bboxes2`.
   */
  method CutPasteAugmentation(image1: array2<Pixel>, bboxes1: seq<Box>, image2: array2<Pixel>, bboxes2: BoxList,
                              alpha: real, rng: RandomState)
    returns (result: Result<(array2<Pixel>, BoxList), PlacementError>, ghost placed: seq<Placement>,
             ghost turns: seq<Turn>)
    requires forall k :: 0 <= k < |bboxes1| ==> InsideImage(bboxes1[k], image1.Length0, image1.Length1)
    modifies bboxes2, rng
    ensures TurnsSoFar(bboxes1, turns, old(bboxes2.items), old(rng.calls), placed, bboxes2.items, rng.calls,
                       rng.draws, image2.Length0, image2.Length1)
    ensures StopsAtFailure(turns, if result.Failure? then Some(result.error) else None)
    ensures result.Success? ==> |turns| == |bboxes1|
    ensures bboxes2.items == old(bboxes2.items) + Targets(placed)
    ensures |old(bboxes2.items)| <= |bboxes2.items| <= |old(bboxes2.items)| + |bboxes1|
    ensures forall n :: 0 <= n < |placed| ==>
              placed[n].index < |bboxes1| && placed[n].source == bboxes1[placed[n].index] && Fits(placed[n], image1)
    ensures forall n, m :: 0 <= n < m < |placed| ==> placed[n].index < placed[m].index
    ensures PastedClear(bboxes2.items, |old(bboxes2.items)|, image2.Length0, image2.Length1)
    ensures result.Success? ==>
              var img := result.value.0;
              && result.value.1 == bboxes2
              && fresh(img) && img.Length0 == image2.Length0 && img.Length1 == image2.Length1
              && (forall i, j :: 0 <= i < img.Length0 && 0 <= j < img.Length1 ==>
                    ((forall n :: 0 <= n < |placed| ==> !Covers(placed[n].target.Coords(), j, i)) ==>
                      img[i, j] == image2[i, j]))
              && (forall i, j, n :: 0 <= i < img.Length0 && 0 <= j < img.Length1 && 0 <= n < |placed| ==>
                    (Covers(placed[n].target.Coords(), j, i) ==>
                      img[i, j] == Blend(image2[i, j], PatchPixel(image1, placed[n], i, j), alpha)))
  {
    var img2 := CopyImage(image2);
    ghost var start := bboxes2.items;
    assert Targets([]) == [];
    var failure;
    failure, placed, turns := PasteAll(image1, bboxes1, image2, img2, bboxes2, alpha, rng);
    if failure.Some? {
      return Failure(failure.value), placed, turns;
    }
    NoTargetsOverlap(start, placed, bboxes2.items);
    PaintedResult(image2, image1, img2, placed, alpha);
    result := Success((img2, bboxes2));
  }

  /**
   * The loop of `CutPasteAugmentation` over `bboxes1`, on the copy `img2`:
   * stops at the first turn that fails and reports its error.
   */
  method PasteAll(image1: array2<Pixel>, bboxes1: seq<Box>, image2: array2<Pixel>, img2: array2<Pixel>,
                  bboxes2: BoxList, alpha: real, rng: RandomState)
    returns (failure: Option<PlacementError>, ghost placed: seq<Placement>, ghost turns: seq<Turn>)
    requires forall k :: 0 <= k < |bboxes1| ==> InsideImage(bboxes1[k], image1.Length0, image1.Length1)
    requires img2 != image1 && img2 != image2
    requires Progress(image1, bboxes1, image2, img2, bboxes2.items, bboxes2.items, [], alpha, 0)
    modifies img2, bboxes2, rng
    ensures Progress(image1, bboxes1, image2, img2, old(bboxes2.items), bboxes2.items, placed, alpha, |turns|)
    ensures TurnsSoFar(bboxes1, turns, old(bboxes2.items), old(rng.calls), placed, bboxes2.items, rng.calls,
                       rng.draws, image2.Length0, image2.Length1)
    ensures StopsAtFailure(turns, failure)
    ensures failure.None? ==> |turns| == |bboxes1|
  {
    placed, turns, failure := [], [], None;
    var k := 0;
    ghost var start := bboxes2.items;
    ghost var startCalls := rng.calls;
    while failure.None? && k < |bboxes1|
      invariant k == |turns|
      invariant Progress(image1, bboxes1, image2, img2, start, bboxes2.items, placed, alpha, |turns|)
      invariant TurnsSoFar(bboxes1, turns, start, startCalls, placed, bboxes2.items, rng.calls,
                           rng.draws, image2.Length0, image2.Length1)
      invariant StopsAtFailure(turns, failure)
      decreases |bboxes1| - k
    {
      var outcome;
      ghost var turns';
      outcome, placed, turns' := TakeTurn(image1, bboxes1, k, image2, img2, start, startCalls, bboxes2, alpha, rng,
                                          placed, turns);
      failure := if outcome.Failed? then Some(outcome.error) else None;
      StopsAtFailureStep(turns, turns'[k], failure);
      turns := turns';
      k := k + 1;
    }
  }

  /**
   * One turn of the loop over `bboxes1`: the outcome for its source box, the
   * destination list the turn started from, and the draw counts before and
   * after it.
   */
  datatype Turn = Turn(outcome: PatchOutcome, items: seq<Box>, calls: nat, after: nat)

  /**
   * The turns taken so far account for everything: turn `k` offered source
   * box `k` to the list the previous turns left behind, from where their
   * draws stopped, and its outcome is `Justified`; the list and draw count
   * now are what the last turn left; and the placements are exactly the
   * turns whose outcome was `Placed`, with the same target box.
   */
  ghost predicate TurnsSoFar(bboxes1: seq<Box>, turns: seq<Turn>, start: seq<Box>, startCalls: nat,
                             placed: seq<Placement>, items: seq<Box>, calls: nat, draws: nat -> nat,
                             height: int, width: int)
  {
    && TurnsChained(bboxes1, turns, start, startCalls, items, calls, draws, height, width)
    && PlacedTurns(turns, placed)
  }

  /** The chain of turns from `start` and `startCalls` to `items` and `calls`, each one `Justified`. */
  ghost predicate TurnsChained(bboxes1: seq<Box>, turns: seq<Turn>, start: seq<Box>, startCalls: nat,
                               items: seq<Box>, calls: nat, draws: nat -> nat, height: int, width: int)
  {
    && |turns| <= |bboxes1|
    && (turns == [] ==> items == start && calls == startCalls)
    && (turns != [] ==>
          && turns[0].items == start && turns[0].calls == startCalls
          && var last := turns[|turns| - 1];
             items == last.items + Added(last.outcome) && calls == last.after)
    && (forall k, l :: 0 <= k && l == k + 1 && l < |turns| ==>
          turns[l].items == turns[k].items + Added(turns[k].outcome) && turns[l].calls == turns[k].after)
    && (forall k :: 0 <= k < |turns| ==>
          Justified(bboxes1[k], turns[k].outcome, turns[k].items, draws, turns[k].calls, turns[k].after, height, width))
  }

  /** The placements are exactly the turns that placed a box, each with that box as its target. */
  ghost predicate PlacedTurns(turns: seq<Turn>, placed: seq<Placement>)
  {
    && (forall n :: 0 <= n < |placed| ==>
          placed[n].index < |turns| && turns[placed[n].index].outcome == Placed(placed[n].target))
    && (forall k :: 0 <= k < |turns| && turns[k].outcome.Placed? ==>
          exists n :: 0 <= n < |placed| && placed[n].index == k)
  }

  /**
   * The turns end at the first failure: no turn before the last one failed,
   * and `failure` is the last turn's error when it failed, None otherwise.
   */
  predicate StopsAtFailure(turns: seq<Turn>, failure: Option<PlacementError>)
  {
    && (forall k :: 0 <= k < |turns| - 1 ==> !turns[k].outcome.Failed?)
    && (failure.None? <==> forall k :: 0 <= k < |turns| ==> !turns[k].outcome.Failed?)
    && (failure.Some? ==> turns != [] && turns[|turns| - 1].outcome == Failed(failure.value))
  }

  /** A turn after turns that all succeeded ends them where it fails. */
  lemma StopsAtFailureStep(turns: seq<Turn>, turn: Turn, failure: Option<PlacementError>)
    requires StopsAtFailure(turns, None)
    requires failure == if turn.outcome.Failed? then Some(turn.outcome.error) else None
    ensures StopsAtFailure(turns + [turn], failure)
  {
    var turns' := turns + [turn];
    assert forall k :: 0 <= k < |turns| ==> turns'[k] == turns[k];
    assert turns'[|turns|] == turn;
    if failure.None? {
      assert forall k :: 0 <= k < |turns'| ==> !turns'[k].outcome.Failed?;
    } else {
      assert !forall k :: 0 <= k < |turns'| ==> !turns'[k].outcome.Failed?;
    }
  }

  /** Recording one more justified turn keeps `TurnsSoFar`. */
  lemma RecordTurn(bboxes1: seq<Box>, turns: seq<Turn>, start: seq<Box>, startCalls: nat, placed: seq<Placement>,
                   items: seq<Box>, calls: nat, draws: nat -> nat, height: int, width: int,
                   turn: Turn, placed': seq<Placement>)
    requires TurnsSoFar(bboxes1, turns, start, startCalls, placed, items, calls, draws, height, width)
    requires |turns| < |bboxes1| && turn.items == items && turn.calls == calls
    requires Justified(bboxes1[|turns|], turn.outcome, items, draws, calls, turn.after, height, width)
    requires turn.outcome.Placed? ==> placed' == placed + [Placement(|turns|, bboxes1[|turns|], turn.outcome.box)]
    requires !turn.outcome.Placed? ==> placed' == placed
    ensures TurnsSoFar(bboxes1, turns + [turn], start, startCalls, placed', items + Added(turn.outcome), turn.after,
                       draws, height, width)
  {
    ChainTurn(bboxes1, turns, start, startCalls, items, calls, draws, height, width, turn);
    PlaceTurn(turns, placed, bboxes1[|turns|], turn, placed');
  }

  /** One more justified turn, starting where the last one stopped, extends the chain. */
  lemma ChainTurn(bboxes1: seq<Box>, turns: seq<Turn>, start: seq<Box>, startCalls: nat,
                  items: seq<Box>, calls: nat, draws: nat -> nat, height: int, width: int, turn: Turn)
    requires TurnsChained(bboxes1, turns, start, startCalls, items, calls, draws, height, width)
    requires |turns| < |bboxes1| && turn.items == items && turn.calls == calls
    requires Justified(bboxes1[|turns|], turn.outcome, items, draws, calls, turn.after, height, width)
    ensures TurnsChained(bboxes1, turns + [turn], start, startCalls, items + Added(turn.outcome), turn.after,
                         draws, height, width)
  {
    var turns' := turns + [turn];
    assert turns'[|turns|] == turn;
    forall k, l | 0 <= k && l == k + 1 && l < |turns'|
      ensures turns'[l].items == turns'[k].items + Added(turns'[k].outcome) && turns'[l].calls == turns'[k].after
    {
      assert turns'[k] == turns[k];
      if l < |turns| {
        assert turns'[l] == turns[l];
      }
    }
    forall k | 0 <= k < |turns'|
      ensures Justified(bboxes1[k], turns'[k].outcome, turns'[k].items, draws, turns'[k].calls, turns'[k].after,
                        height, width)
    {
      if k < |turns| {
        assert turns'[k] == turns[k];
      }
    }
  }

  /** Recording the turn's placement, if it made one, keeps the placements in step with the turns. */
  lemma PlaceTurn(turns: seq<Turn>, placed: seq<Placement>, src: Box, turn: Turn, placed': seq<Placement>)
    requires PlacedTurns(turns, placed)
    requires turn.outcome.Placed? ==> placed' == placed + [Placement(|turns|, src, turn.outcome.box)]
    requires !turn.outcome.Placed? ==> placed' == placed
    ensures PlacedTurns(turns + [turn], placed')
  {
    var turns' := turns + [turn];
    forall n | 0 <= n < |placed'|
      ensures placed'[n].index < |turns'| && turns'[placed'[n].index].outcome == Placed(placed'[n].target)
    {
      if n < |placed| {
        assert placed'[n] == placed[n];
      }
    }
    forall k | 0 <= k < |turns'| && turns'[k].outcome.Placed?
      ensures exists n :: 0 <= n < |placed'| && placed'[n].index == k
    {
      if k == |turns| {
        assert placed'[|placed|].index == k;
      } else {
        assert turns'[k] == turns[k];
        var n :| 0 <= n < |placed| && placed[n].index == k;
        assert placed'[n] == placed[n];
      }
    }
  }

  /**
   * What the loop of `CutPasteAugmentation` keeps after the first `k`
   * source boxes: the appended boxes are the targets of the placements made
   * so far, in order of their source boxes, and each pixel of the copy is
   * `image2` with those patches blended over it.
   */
  ghost predicate Progress(image1: array2<Pixel>, bboxes1: seq<Box>, image2: array2<Pixel>, img2: array2<Pixel>,
                           start: seq<Box>, items: seq<Box>, placed: seq<Placement>, alpha: real, k: int)
    reads image1, image2, img2
  {
    && BoxesSoFar(image1, bboxes1, start, items, placed, image2.Length0, image2.Length1, k)
    && img2.Length0 == image2.Length0 && img2.Length1 == image2.Length1
    && (forall i, j :: 0 <= i < img2.Length0 && 0 <= j < img2.Length1 ==>
          img2[i, j] == Painted(image2, image1, placed, alpha, i, j))
  }

  /** The box part of `Progress`. */
  ghost predicate BoxesSoFar(image1: array2<Pixel>, bboxes1: seq<Box>, start: seq<Box>, items: seq<Box>,
                             placed: seq<Placement>, height: int, width: int, k: int)
  {
    && items == start + Targets(placed)
    && |placed| <= k
    && (forall n :: 0 <= n < |placed| ==>
          placed[n].index < k && placed[n].index < |bboxes1| && placed[n].source == bboxes1[placed[n].index]
          && Fits(placed[n], image1))
    && (forall n, m :: 0 <= n < m < |placed| ==> placed[n].index < placed[m].index)
    && PastedClear(items, |start|, height, width)
  }

  /** Recording the placement of source box `k` keeps the box part of `Progress`. */
  lemma RecordPlacement(image1: array2<Pixel>, bboxes1: seq<Box>, start: seq<Box>, items: seq<Box>,
                        placed: seq<Placement>, height: int, width: int, k: nat, box: Box)
    requires BoxesSoFar(image1, bboxes1, start, items, placed, height, width, k)
    requires k < |bboxes1| && InsideImage(bboxes1[k], image1.Length0, image1.Length1) && SameShape(bboxes1[k], box)
    requires ClearOf(box.Coords(), items)
    requires 0 <= box.x1 && box.x2 < width && 0 <= box.y1 && box.y2 <= height
    ensures BoxesSoFar(image1, bboxes1, start, items + [box], placed + [Placement(k, bboxes1[k], box)], height, width, k + 1)
  {
    var placed' := placed + [Placement(k, bboxes1[k], box)];
    assert Targets(placed') == Targets(placed) + [box];
    AppendPasted(items, box, |start|, height, width);
  }

  /** One turn of the loop, recorded in the account of all turns. */
  method TakeTurn(image1: array2<Pixel>, bboxes1: seq<Box>, k: nat, image2: array2<Pixel>, img2: array2<Pixel>,
                  ghost start: seq<Box>, ghost startCalls: nat, bboxes2: BoxList, alpha: real, rng: RandomState,
                  ghost placed: seq<Placement>, ghost turns: seq<Turn>)
    returns (outcome: PatchOutcome, ghost placed': seq<Placement>, ghost turns': seq<Turn>)
    requires k < |bboxes1| && InsideImage(bboxes1[k], image1.Length0, image1.Length1)
    requires img2 != image1 && img2 != image2
    requires Progress(image1, bboxes1, image2, img2, start, bboxes2.items, placed, alpha, k)
    requires |turns| == k
    requires TurnsSoFar(bboxes1, turns, start, startCalls, placed, bboxes2.items, rng.calls,
                        rng.draws, image2.Length0, image2.Length1)
    modifies img2, bboxes2, rng
    ensures turns' == turns + [Turn(outcome, old(bboxes2.items), old(rng.calls), rng.calls)]
    ensures Progress(image1, bboxes1, image2, img2, start, bboxes2.items, placed', alpha, k + 1)
    ensures TurnsSoFar(bboxes1, turns', start, startCalls, placed', bboxes2.items, rng.calls,
                       rng.draws, image2.Length0, image2.Length1)
  {
    ghost var items, calls := bboxes2.items, rng.calls;
    outcome, placed' := PasteNext(image1, bboxes1, k, image2, img2, start, bboxes2, alpha, rng, placed);
    turns' := turns + [Turn(outcome, items, calls, rng.calls)];
    RecordTurn(bboxes1, turns, start, startCalls, placed, items, calls, rng.draws, image2.Length0, image2.Length1,
               turns'[k], placed');
  }

  /** One turn of the loop: offer source box `k` to `PlacePatch` and record a placement. */
  method PasteNext(image1: array2<Pixel>, bboxes1: seq<Box>, k: nat, image2: array2<Pixel>, img2: array2<Pixel>,
                   ghost start: seq<Box>, bboxes2: BoxList, alpha: real, rng: RandomState, ghost placed: seq<Placement>)
    returns (outcome: PatchOutcome, ghost placed': seq<Placement>)
    requires k < |bboxes1| && InsideImage(bboxes1[k], image1.Length0, image1.Length1)
    requires img2 != image1 && img2 != image2
    requires Progress(image1, bboxes1, image2, img2, start, bboxes2.items, placed, alpha, k)
    modifies img2, bboxes2, rng
    ensures Justified(bboxes1[k], outcome, old(bboxes2.items), rng.draws, old(rng.calls), rng.calls,
                      image2.Length0, image2.Length1)
    ensures bboxes2.items == old(bboxes2.items) + Added(outcome)
    ensures Progress(image1, bboxes1, image2, img2, start, bboxes2.items, placed', alpha, k + 1)
    ensures outcome.Placed? ==> placed' == placed + [Placement(k, bboxes1[k], outcome.box)]
    ensures !outcome.Placed? ==> placed' == placed
  {
    outcome := PlacePatch(image1, bboxes1[k], img2, bboxes2, alpha, rng);
    placed' := placed;
    if outcome.Placed? {
      var box := outcome.box;
      var p := Placement(k, bboxes1[k], box);
      placed' := placed + [p];
      RecordPlacement(image1, bboxes1, start, old(bboxes2.items), placed, image2.Length0, image2.Length1, k, box);
      forall i, j | 0 <= i < img2.Length0 && 0 <= j < img2.Length1
        ensures img2[i, j] == Painted(image2, image1, placed', alpha, i, j)
      {
        PaintedStep(image2, image1, placed, p, alpha, i, j);
      }
    }
  }

  /** With no two targets overlapping, the painted copy is `image2` blended once under each target. */
  lemma PaintedResult(image2: array2<Pixel>, image1: array2<Pixel>, img: array2<Pixel>, placed: seq<Placement>, alpha: real)
    requires img.Length0 == image2.Length0 && img.Length1 == image2.Length1
    requires forall n :: 0 <= n < |placed| ==> Fits(placed[n], image1)
    requires forall n, m :: 0 <= n < m < |placed| ==> !CheckOverlap(placed[m].target.Coords(), placed[n].target.Coords())
    requires forall i, j :: 0 <= i < img.Length0 && 0 <= j < img.Length1 ==>
               img[i, j] == Painted(image2, image1, placed, alpha, i, j)
    ensures forall i, j :: 0 <= i < img.Length0 && 0 <= j < img.Length1 ==>
              ((forall n :: 0 <= n < |placed| ==> !Covers(placed[n].target.Coords(), j, i)) ==>
                img[i, j] == image2[i, j])
    ensures forall i, j, n :: 0 <= i < img.Length0 && 0 <= j < img.Length1 && 0 <= n < |placed| ==>
              (Covers(placed[n].target.Coords(), j, i) ==>
                img[i, j] == Blend(image2[i, j], PatchPixel(image1, placed[n], i, j), alpha))
  {
    forall i, j | 0 <= i < img.Length0 && 0 <= j < img.Length1 &&
                  forall n :: 0 <= n < |placed| ==> !Covers(placed[n].target.Coords(), j, i)
      ensures img[i, j] == image2[i, j]
    {
      PaintedOutside(image2, image1, placed, alpha, i, j);
    }
    forall i, j, n | 0 <= i < img.Length0 && 0 <= j < img.Length1 && 0 <= n < |placed| &&
                     Covers(placed[n].target.Coords(), j, i)
      ensures img[i, j] == Blend(image2[i, j], PatchPixel(image1, placed[n], i, j), alpha)
    {
      PaintedInside(image2, image1, placed, alpha, i, j, n);
    }
  }

  /**
   * Every box from position `start` on lies within a `height` x `width`
   * image (short of its last column, as `randint(0, width - pw)` allows)
   * and overlaps none of the boxes before it.
   */
  predicate PastedClear(items: seq<Box>, start: nat, height: int, width: int)
  {
    forall n :: start <= n < |items| ==>
      && ClearOf(items[n].Coords(), items[..n])
      && 0 <= items[n].x1 && items[n].x2 < width
      && 0 <= items[n].y1 && items[n].y2 <= height
  }

  /** Appending a box clear of all the others keeps `PastedClear`. */
  lemma AppendPasted(items: seq<Box>, b: Box, start: nat, height: int, width: int)
    requires PastedClear(items, start, height, width)
    requires ClearOf(b.Coords(), items)
    requires 0 <= b.x1 && b.x2 < width && 0 <= b.y1 && b.y2 <= height
    ensures PastedClear(items + [b], start, height, width)
  {
    var longer := items + [b];
    forall n | start <= n < |longer|
      ensures ClearOf(longer[n].Coords(), longer[..n])
    {
      assert longer[..n] == if n == |items| then items else items[..n];
    }
  }

  /** Boxes appended clear of everything before them are pairwise clear of each other. */
  lemma NoTargetsOverlap(start: seq<Box>, placed: seq<Placement>, items: seq<Box>)
    requires items == start + Targets(placed)
    requires forall n :: |start| <= n < |items| ==> ClearOf(items[n].Coords(), items[..n])
    ensures forall n, m :: 0 <= n < m < |placed| ==> !CheckOverlap(placed[m].target.Coords(), placed[n].target.Coords())
  {
    forall n, m | 0 <= n < m < |placed|
      ensures !CheckOverlap(placed[m].target.Coords(), placed[n].target.Coords())
    {
      var k := |start| + m;
      assert items[k] == placed[m].target;
      assert items[..k][|start| + n] == placed[n].target;
    }
  }
}
