/**
 * `get_dark_colors`: one colour per class, taken from a fixed palette of
 * sixteen dark colours and cycled when there are more classes than colours.
 */
module Palette {

  /** A colour as the video overlay draws it: three channel values. */
  type Colour = (int, int, int)

  /** The sixteen dark colours, in the order they are handed out. */
  const DarkColors: seq<Colour> := [
    (139, 0, 0), (0, 100, 0), (0, 0, 139), (85, 107, 47),
    (139, 69, 19), (0, 139, 139), (139, 0, 139), (47, 79, 79),
    (112, 128, 144), (75, 0, 130), (123, 104, 238), (0, 128, 128),
    (128, 0, 0), (34, 139, 34), (70, 130, 180), (105, 105, 105)
  ]

  /** `s * k` on a list: `k` copies of `s`, one after the other. */
  function Repeat<T>(s: seq<T>, k: nat): (r: seq<T>)
    requires |s| > 0
    ensures |r| == k * |s|
    ensures forall i :: 0 <= i < |r| ==> r[i] == s[i % |s|]
  {
    if k == 0 then []
    else
      var front := Repeat(s, k - 1);
      assert forall i :: |front| <= i < |front| + |s| ==> i % |s| == i - |front| by {
        forall i | |front| <= i < |front| + |s|
          ensures i % |s| == i - |front|
        {
          ShiftedMod(i - |front|, k - 1, |s|);
        }
      }
      front + s
  }

  /** Adding whole multiples of `m` does not change a remainder below `m`. */
  lemma ShiftedMod(j: nat, q: nat, m: nat)
    requires j < m
    ensures (j + q * m) % m == j
  {
    var a := j + q * m;
    var d, r := a / m, a % m;
    assert d * m + r == q * m + j;
    if d > q {
      assert (d - q) * m == j - r;
      AtLeastOnce(m, d - q);
    } else if d < q {
      assert (q - d) * m == r - j;
      AtLeastOnce(m, q - d);
    }
  }

  /** A positive multiple of `m` is at least `m`. */
  lemma {:induction false} AtLeastOnce(m: nat, t: nat)
    requires t >= 1
    ensures t * m >= m
  {
    if t > 1 {
      AtLeastOnce(m, t - 1);
      assert t * m == (t - 1) * m + m;
    }
  }

  /**
   * `lst[:n]` in Python: a negative stop counts from the end, and the stop
   * is then clamped into `0 .. len(lst)`.
   */
  function SliceTo<T>(s: seq<T>, n: int): (r: seq<T>)
    ensures r <= s
    ensures n >= 0 ==> |r| == if n <= |s| then n else |s|
    ensures n < 0 ==> |r| == if |s| + n >= 0 then |s| + n else 0
  {
    var stop := if n < 0 then |s| + n else n;
    s[..if stop < 0 then 0 else if stop > |s| then |s| else stop]
  }

  /**
   * `get_dark_colors(num_classes)`: the palette, repeated
   * `num_classes // 16 + 1` times when it is too short, cut to
   * `num_classes` entries.
   */
  function GetDarkColors(numClasses: int): (colours: seq<Colour>)
    ensures numClasses >= 0 ==> |colours| == numClasses
    ensures forall i :: 0 <= i < |colours| ==> colours[i] == DarkColors[i % 16]
    ensures numClasses <= 16 ==> colours == SliceTo(DarkColors, numClasses)
  {
    if numClasses > |DarkColors| then
      var copies := numClasses / |DarkColors| + 1;
      var palette := Repeat(DarkColors, copies);
      assert numClasses < copies * 16 by {
        assert numClasses == (copies - 1) * 16 + numClasses % 16;
      }
      palette[..numClasses]
    else
      SliceTo(DarkColors, numClasses)
  }

  /** Every colour handed out is one of the sixteen. */
  lemma ColoursFromPalette(numClasses: int)
    ensures forall i :: 0 <= i < |GetDarkColors(numClasses)| ==> GetDarkColors(numClasses)[i] in DarkColors
  {
    var colours := GetDarkColors(numClasses);
    forall i | 0 <= i < |colours|
      ensures colours[i] in DarkColors
    {
      assert colours[i] == DarkColors[i % 16];
    }
  }

  /** Up to sixteen classes get pairwise distinct colours. */
  lemma DistinctUpToSixteen(numClasses: int)
    requires 0 <= numClasses <= 16
    ensures forall i, j :: 0 <= i < j < numClasses ==> GetDarkColors(numClasses)[i] != GetDarkColors(numClasses)[j]
  {
  }

  /** Colours repeat with period sixteen: class `i + 16` shares the colour of class `i`. */
  lemma ColoursCycle(numClasses: int, i: nat)
    requires i + 16 < numClasses
    ensures GetDarkColors(numClasses)[i + 16] == GetDarkColors(numClasses)[i]
  {
    ShiftedMod(i % 16, i / 16 + 1, 16);
  }

  /** More classes keep the colours of the earlier ones: a longer result extends a shorter one. */
  lemma MoreClassesExtend(m: nat, n: nat)
    requires m <= n
    ensures GetDarkColors(n)[..m] == GetDarkColors(m)
  {
  }

  /** A negative class count drops that many colours from the end of the palette. */
  lemma NegativeCount()
    ensures GetDarkColors(-3) == DarkColors[..13]
    ensures GetDarkColors(-20) == []
    ensures GetDarkColors(0) == []
  {
  }
}
