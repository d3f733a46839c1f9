/**
 * Images as `numpy` arrays of height x width BGR pixels, the copy the
 * augmentation takes, and the weighted blend `cv2.addWeighted` applies to
 * one rectangular region.
 */
module Imaging {
  import opened Geometry

  newtype byte = x: int | 0 <= x < 256

  /** One 8-bit BGR pixel. */
  datatype Pixel = Pixel(blue: byte, green: byte, red: byte)

  /** Round to the nearest integer, ties to the even one (OpenCV's `cvRound`). */
  function RoundHalfEven(v: real): (n: int)
    ensures v - 0.5 <= n as real <= v + 0.5
  {
    var f := v.Floor;
    var frac := v - f as real;
    if frac < 0.5 then f
    else if frac > 0.5 then f + 1
    else if f % 2 == 0 then f else f + 1
  }

  /** `saturate_cast<uchar>`: clamp into 0..255. */
  function Saturate(n: int): byte
  {
    if n < 0 then 0 else if n > 255 then 255 else n as byte
  }

  /**
   * One channel of `cv2.addWeighted(under, 1 - alpha, over, alpha, 0)`:
   * for a weight in [0, 1] the result lies between the two inputs, weight 0
   * keeps `under` and weight 1 gives `over`.
   */
  function BlendChannel(under: byte, over: byte, alpha: real): (r: byte)
    ensures 0.0 <= alpha <= 1.0 ==>
              Min(under as int, over as int) <= r as int <= Max(under as int, over as int)
    ensures alpha == 0.0 ==> r == under
    ensures alpha == 1.0 ==> r == over
  {
    var v := under as real * (1.0 - alpha) + over as real * alpha;
    BetweenAfterRounding(under as int, over as int, alpha, v);
    Saturate(RoundHalfEven(v))
  }

  lemma BetweenAfterRounding(u: int, o: int, alpha: real, v: real)
    requires v == u as real * (1.0 - alpha) + o as real * alpha
    ensures 0.0 <= alpha <= 1.0 ==> Min(u, o) <= RoundHalfEven(v) <= Max(u, o)
    ensures alpha == 0.0 ==> RoundHalfEven(v) == u
    ensures alpha == 1.0 ==> RoundHalfEven(v) == o
  {
    if 0.0 <= alpha <= 1.0 {
      var lo, hi := Min(u, o), Max(u, o);
      if u <= o {
        assert v == u as real + alpha * (o - u) as real;
        ScaledBetween(alpha, (o - u) as real);
      } else {
        assert v == o as real + (1.0 - alpha) * (u - o) as real;
        ScaledBetween(1.0 - alpha, (u - o) as real);
      }
      assert lo as real <= v <= hi as real;
      var f := v.Floor;
      assert lo <= f;
      assert f < hi ==> f + 1 <= hi;
    }
  }

  /** A fraction of a non-negative amount lies between nothing and all of it. */
  lemma ScaledBetween(a: real, d: real)
    requires 0.0 <= a <= 1.0 && 0.0 <= d
    ensures 0.0 <= a * d <= d
  {
    assert d - a * d == (1.0 - a) * d;
  }

  /** The per-pixel blend: every channel weighted as in `BlendChannel`. */
  function Blend(under: Pixel, over: Pixel, alpha: real): (p: Pixel)
    ensures alpha == 0.0 ==> p == under
    ensures alpha == 1.0 ==> p == over
  {
    Pixel(BlendChannel(under.blue, over.blue, alpha),
          BlendChannel(under.green, over.green, alpha),
          BlendChannel(under.red, over.red, alpha))
  }

  /** `image.copy()`: a fresh image with the same size and pixels. */
  method CopyImage(image: array2<Pixel>) returns (copy: array2<Pixel>)
    ensures fresh(copy)
    ensures copy.Length0 == image.Length0 && copy.Length1 == image.Length1
    ensures forall i, j :: 0 <= i < image.Length0 && 0 <= j < image.Length1 ==> copy[i, j] == image[i, j]
  {
    copy := new Pixel[image.Length0, image.Length1];
    for i := 0 to image.Length0
      invariant forall i', j :: 0 <= i' < i && 0 <= j < image.Length1 ==> copy[i', j] == image[i', j]
    {
      for j := 0 to image.Length1
        invariant forall i', j' :: 0 <= i' < i && 0 <= j' < image.Length1 ==> copy[i', j'] == image[i', j']
        invariant forall j' :: 0 <= j' < j ==> copy[i, j'] == image[i, j']
      {
        copy[i, j] := image[i, j];
      }
    }
  }

  /**
   * `img[r.yMin:r.yMax, r.xMin:r.xMax] = cv2.addWeighted(img[...], 1 - alpha, patch, alpha, 0)`
   * where the patch is the same-sized region of `source` whose top-left
   * corner is `(srcTop, srcLeft)`: every pixel inside `r` is blended with
   * the corresponding patch pixel, every pixel outside `r` is unchanged.
   */
  method BlendRegion(img: array2<Pixel>, source: array2<Pixel>, srcTop: int, srcLeft: int, r: Rect, alpha: real)
    requires img != source
    requires 0 <= r.yMin <= r.yMax <= img.Length0 && 0 <= r.xMin <= r.xMax <= img.Length1
    requires 0 <= srcTop && srcTop + (r.yMax - r.yMin) <= source.Length0
    requires 0 <= srcLeft && srcLeft + (r.xMax - r.xMin) <= source.Length1
    modifies img
    ensures forall i, j :: 0 <= i < img.Length0 && 0 <= j < img.Length1 ==>
              img[i, j] == if Covers(r, j, i)
                           then Blend(old(img[i, j]), source[srcTop + i - r.yMin, srcLeft + j - r.xMin], alpha)
                           else old(img[i, j])
  {
    for i := r.yMin to r.yMax
      invariant forall i', j :: 0 <= i' < img.Length0 && 0 <= j < img.Length1 ==>
                  img[i', j] == if r.yMin <= i' < i && r.xMin <= j < r.xMax
                                then Blend(old(img[i', j]), source[srcTop + i' - r.yMin, srcLeft + j - r.xMin], alpha)
                                else old(img[i', j])
    {
      for j := r.xMin to r.xMax
        invariant forall i', j' :: 0 <= i' < img.Length0 && 0 <= j' < img.Length1 ==>
                    img[i', j'] == if (r.yMin <= i' < i && r.xMin <= j' < r.xMax) || (i' == i && r.xMin <= j' < j)
                                   then Blend(old(img[i', j']), source[srcTop + i' - r.yMin, srcLeft + j' - r.xMin], alpha)
                                   else old(img[i', j'])
      {
        img[i, j] := Blend(img[i, j], source[srcTop + i - r.yMin, srcLeft + j - r.xMin], alpha);
      }
    }
  }
}
