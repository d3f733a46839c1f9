/**
 * The label-file side of the cut-paste augmentation: reading and writing
 * annotation lines, and converting between YOLO's normalised
 * `class x_centre y_centre width height` and pixel corner boxes.
 */
module YoloFormat {
  import opened Text
  import opened Geometry

  /** One line of a label file, as written: the space-joined fields and a newline. */
  function AnnotationLine(fields: seq<string>): string
  {
    JoinWithSpaces(fields) + "\n"
  }

  /** The text `save_yolo_annotations` writes: one line per annotation, in order. */
  function Serialize(annotations: seq<seq<string>>): string
  {
    if annotations == [] then ""
    else AnnotationLine(annotations[0]) + Serialize(annotations[1..])
  }

  /** Every field of every annotation is a token (non-empty, no whitespace). */
  predicate AllTokens(annotations: seq<seq<string>>)
  {
    forall k, j :: 0 <= k < |annotations| && 0 <= j < |annotations[k]| ==> IsToken(annotations[k][j])
  }

  /**
   * `load_yolo_annotations` on the file's text: one list of fields per line
   * that `readlines()` returns, each line stripped and split on whitespace.
   */
  function LoadYoloAnnotations(text: string): (annotations: seq<seq<string>>)
    ensures |annotations| == |ReadLines(text)|
    ensures AllTokens(annotations)
  {
    var lines := ReadLines(text);
    seq(|lines|, k requires 0 <= k < |lines| => SplitWhitespace(lines[k]))
  }

  /**
   * `save_yolo_annotations`: writes each annotation as its space-joined
   * fields and a newline. The text read back gives the annotations again
   * whenever every field is a token.
   */
  method SaveYoloAnnotations(annotations: seq<seq<string>>) returns (text: string)
    ensures text == Serialize(annotations)
    ensures AllTokens(annotations) ==> LoadYoloAnnotations(text) == annotations
  {
    text := "";
    for k := 0 to |annotations|
      invariant text + Serialize(annotations[k..]) == Serialize(annotations)
    {
      assert annotations[k..][1..] == annotations[k + 1..];
      text := text + AnnotationLine(annotations[k]);
    }
    assert annotations[|annotations|..] == [];
    if AllTokens(annotations) {
      SaveLoadRoundTrip(annotations);
    }
  }

  /** `readlines()` of the saved text gives back one line per annotation. */
  lemma {:induction false} ReadLinesOfSerialized(annotations: seq<seq<string>>)
    requires AllTokens(annotations)
    ensures |ReadLines(Serialize(annotations))| == |annotations|
    ensures forall k :: 0 <= k < |annotations| ==>
              ReadLines(Serialize(annotations))[k] == AnnotationLine(annotations[k])
  {
    if annotations != [] {
      var rest := annotations[1..];
      assert AllTokens(rest) by {
        forall k, j | 0 <= k < |rest| && 0 <= j < |rest[k]| ensures IsToken(rest[k][j]) {
          assert rest[k] == annotations[k + 1];
        }
      }
      ReadLinesOfSerialized(rest);
      JoinedHasNoNewline(annotations[0]);
      ReadLinesCons(JoinWithSpaces(annotations[0]), Serialize(rest));
      assert Serialize(annotations) == JoinWithSpaces(annotations[0]) + "\n" + Serialize(rest);
    }
  }

  /** Saving and then loading gives back the annotations when every field is a token. */
  lemma SaveLoadRoundTrip(annotations: seq<seq<string>>)
    requires AllTokens(annotations)
    ensures LoadYoloAnnotations(Serialize(annotations)) == annotations
  {
    ReadLinesOfSerialized(annotations);
    var loaded := LoadYoloAnnotations(Serialize(annotations));
    forall k | 0 <= k < |annotations| ensures loaded[k] == annotations[k] {
      SplitJoinedLine(annotations[k]);
    }
  }

  /** A YOLO annotation after `map(float, ...)`: class and normalised centre and size. */
  datatype YoloBox = YoloBox(cls: real, xCentre: real, yCentre: real, width: real, height: real)

  /** Python's `int()` on a float: truncation toward zero. */
  function Trunc(v: real): (n: int)
    ensures v >= 0.0 ==> n as real <= v < n as real + 1.0
    ensures v < 0.0 ==> n as real - 1.0 < v <= n as real
  {
    if v >= 0.0 then v.Floor else -((-v).Floor)
  }

  /** Truncation is monotone. */
  lemma TruncMonotone(u: real, v: real)
    requires u <= v
    ensures Trunc(u) <= Trunc(v)
  {
    if u < 0.0 && v >= 0.0 {
      assert Trunc(u) <= 0 <= Trunc(v);
    } else if u >= 0.0 {
      assert Trunc(u) as real <= u <= v < Trunc(v) as real + 1.0;
    } else {
      assert Trunc(u) as real - 1.0 < u <= v <= Trunc(v) as real;
    }
  }

  /** Truncation gives back an integer unchanged. */
  lemma TruncOfInt(n: int)
    ensures Trunc(n as real) == n
  {
  }

  /**
   * One axis of `yolo_to_bbox`: the normalised centre and size scaled by the
   * image dimension, then the two corners truncated toward zero.
   */
  function Corners(centre: real, size: real, scale: int): (int, int)
  {
    var c := centre * scale as real;
    var s := size * scale as real;
    (Trunc(c - s / 2.0), Trunc(c + s / 2.0))
  }

  /** A non-negative size never gives corners in the wrong order. */
  lemma CornersOrdered(centre: real, size: real, scale: int)
    requires size >= 0.0 && scale >= 0
    ensures Corners(centre, size, scale).0 <= Corners(centre, size, scale).1
  {
    var c := centre * scale as real;
    var s := size * scale as real;
    assert s >= 0.0 by {
      assert scale as real >= 0.0;
      assert size * scale as real >= 0.0 * scale as real;
    }
    assert c - s / 2.0 <= c + s / 2.0;
    TruncMonotone(c - s / 2.0, c + s / 2.0);
  }

  /** `yolo_to_bbox`: scale to pixels and truncate the corners toward zero. */
  function YoloToBox(a: YoloBox, imgWidth: int, imgHeight: int): (b: Box)
    ensures b.cls == Trunc(a.cls)
  {
    var (x1, x2) := Corners(a.xCentre, a.width, imgWidth);
    var (y1, y2) := Corners(a.yCentre, a.height, imgHeight);
    Box(Trunc(a.cls), x1, y1, x2, y2)
  }

  /**
   * `bbox_to_yolo` before the six-digit formatting: centre and size divided
   * by the image size.
   */
  function BoxToYolo(b: Box, imgWidth: int, imgHeight: int): (a: YoloBox)
    requires imgWidth > 0 && imgHeight > 0
    ensures a.xCentre * imgWidth as real == (b.x1 + b.x2) as real / 2.0
    ensures a.yCentre * imgHeight as real == (b.y1 + b.y2) as real / 2.0
    ensures a.width * imgWidth as real == (b.x2 - b.x1) as real
    ensures a.height * imgHeight as real == (b.y2 - b.y1) as real
  {
    ScaleBack((b.x1 + b.x2) as real / 2.0, imgWidth as real);
    ScaleBack((b.y1 + b.y2) as real / 2.0, imgHeight as real);
    ScaleBack((b.x2 - b.x1) as real, imgWidth as real);
    ScaleBack((b.y2 - b.y1) as real, imgHeight as real);
    YoloBox(b.cls as real,
            ((b.x1 + b.x2) as real / 2.0) / imgWidth as real,
            ((b.y1 + b.y2) as real / 2.0) / imgHeight as real,
            (b.x2 - b.x1) as real / imgWidth as real,
            (b.y2 - b.y1) as real / imgHeight as real)
  }

  /** A non-negative width and height never give corners in the wrong order. */
  lemma YoloCornersOrdered(a: YoloBox, imgWidth: int, imgHeight: int)
    requires imgWidth >= 0 && imgHeight >= 0
    requires a.width >= 0.0 && a.height >= 0.0
    ensures YoloToBox(a, imgWidth, imgHeight).x1 <= YoloToBox(a, imgWidth, imgHeight).x2
    ensures YoloToBox(a, imgWidth, imgHeight).y1 <= YoloToBox(a, imgWidth, imgHeight).y2
  {
    CornersOrdered(a.xCentre, a.width, imgWidth);
    CornersOrdered(a.yCentre, a.height, imgHeight);
  }

  /**
   * A one-pixel-wide box centred on column 0 truncates to a box of width 0:
   * a positive width alone does not give `x1 < x2`.
   */
  lemma NarrowBoxCollapses()
    ensures var b := YoloToBox(YoloBox(0.0, 0.0, 0.5, 0.01, 0.2), 100, 100);
            b.x1 == 0 && b.x2 == 0
  {
  }

  /** The worked example: `0 0.5 0.5 0.2 0.4` on a 100 x 100 image, and back. */
  lemma ConversionExample()
    ensures YoloToBox(YoloBox(0.0, 0.5, 0.5, 0.2, 0.4), 100, 100) == Box(0, 40, 30, 60, 70)
    ensures BoxToYolo(Box(0, 40, 30, 60, 70), 100, 100) == YoloBox(0.0, 0.5, 0.5, 0.2, 0.4)
  {
  }

  /**
   * Converting a pixel box to YOLO values and back gives the same box,
   * before the values are rounded to six digits.
   */
  lemma BoxYoloRoundTrip(b: Box, imgWidth: int, imgHeight: int)
    requires imgWidth > 0 && imgHeight > 0
    ensures YoloToBox(BoxToYolo(b, imgWidth, imgHeight), imgWidth, imgHeight) == b
  {
    var a := BoxToYolo(b, imgWidth, imgHeight);
    AxisRoundTrip(b.x1, b.x2, imgWidth, a.xCentre, a.width);
    AxisRoundTrip(b.y1, b.y2, imgHeight, a.yCentre, a.height);
    TruncOfInt(b.cls);
  }

  /** One axis of the round trip: centre and size scaled down and up give the corners back. */
  lemma AxisRoundTrip(lo: int, hi: int, scale: int, centre: real, size: real)
    requires scale > 0
    requires centre * scale as real == (lo + hi) as real / 2.0
    requires size * scale as real == (hi - lo) as real
    ensures Corners(centre, size, scale) == (lo, hi)
  {
    var d := scale as real;
    var c, s := centre * d, size * d;
    assert c - s / 2.0 == lo as real;
    assert c + s / 2.0 == hi as real;
    TruncOfInt(lo);
    TruncOfInt(hi);
    assert Corners(centre, size, scale).0 == Trunc(c - s / 2.0);
    assert Corners(centre, size, scale).1 == Trunc(c + s / 2.0);
  }

  lemma ScaleBack(v: real, d: real)
    requires d != 0.0
    ensures (v / d) * d == v
  {
  }
}
