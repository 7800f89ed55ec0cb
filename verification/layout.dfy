/**
 * The integer geometry of the merge: normalised heights, the subtitle band
 * height, the canvas height, where each band goes and which rows it takes.
 * Divisions the program performs in floating point are taken exactly here.
 */
module Layout {

  /** A rational number num/den; the subtitle ratio is one with both parts positive. */
  datatype Ratio = Ratio(num: nat, den: nat)

  type PositiveRatio = r: Ratio | r.num > 0 && r.den > 0 witness Ratio(6, 1)

  /** The default `subtitle_ratio` of 6: the band is a sixth of the first image's height. */
  const DefaultRatio: PositiveRatio := Ratio(6, 1)

  /** A PIL box `(left, upper, right, lower)`; coordinates may be negative. */
  datatype Box = Box(left: int, top: int, right: int, bottom: int)

  /**
   * `int(height * (targetWidth / width))`: the height that keeps the aspect
   * ratio at the new width, truncated (not rounded).
   */
  function ResizedHeight(width: nat, height: nat, targetWidth: nat): (h: nat)
    requires width > 0
    ensures h * width <= height * targetWidth < (h + 1) * width
  {
    (height * targetWidth) / width
  }

  /** `int(firstHeight / ratio)`: the band height, the floor of the exact quotient. */
  function SubtitleHeight(firstHeight: nat, ratio: PositiveRatio): (s: nat)
    ensures s * ratio.num <= firstHeight * ratio.den < (s + 1) * ratio.num
  {
    (firstHeight * ratio.den) / ratio.num
  }

  /** `first height + subtitle_height * (count - 1)` */
  function CanvasHeight(firstHeight: nat, bandHeight: nat, count: nat): nat
    requires count >= 1
  {
    firstHeight + bandHeight * (count - 1)
  }

  /** `y_position` of band `i` (1-based): `first height + subtitle_height * (i - 1)`. */
  function BandTop(firstHeight: nat, bandHeight: nat, i: nat): nat
    requires i >= 1
  {
    firstHeight + bandHeight * (i - 1)
  }

  /** The crop box for an image of the given height: full width, bottom `bandHeight` rows. */
  function BandCropBox(imageHeight: nat, bandHeight: nat, targetWidth: nat): Box {
    Box(0, imageHeight - bandHeight, targetWidth, imageHeight)
  }

  predicate BoxInside(b: Box, width: nat, height: nat) {
    0 <= b.left <= b.right <= width && 0 <= b.top <= b.bottom <= height
  }

  /**
   * Which paste writes canvas row `y`: 0 for the first image, `i` for band `i`.
   */
  function WriterOf(firstHeight: nat, bandHeight: nat, y: nat): nat {
    if y < firstHeight || bandHeight == 0 then 0 else (y - firstHeight) / bandHeight + 1
  }

  /** Paste `k` (0 = the first image, `k >= 1` = band `k`) writes row `y`. */
  predicate Covers(firstHeight: nat, bandHeight: nat, k: nat, y: nat) {
    if k == 0 then y < firstHeight
    else BandTop(firstHeight, bandHeight, k) <= y < BandTop(firstHeight, bandHeight, k) + bandHeight
  }

  // ---------------------------------------------------------------------
  // Properties
  // ---------------------------------------------------------------------

  /** An image already at the target width keeps its height. */
  lemma ResizedHeightSameWidth(width: nat, height: nat)
    requires width > 0
    ensures ResizedHeight(width, height, width) == height
  {
  }

  /** The resized height truncates: 100 rows at width 300 become 66 (not 67) at width 200. */
  lemma ResizedHeightTruncates()
    ensures ResizedHeight(300, 100, 200) == 66
  {
  }

  /** A ratio of at least 1 gives a band no taller than the first image. */
  lemma SubtitleHeightAtMostFirst(firstHeight: nat, ratio: PositiveRatio)
    requires ratio.num >= ratio.den
    ensures SubtitleHeight(firstHeight, ratio) <= firstHeight
  {
    MulMono(ratio.den, ratio.num, firstHeight);
    MulCancel(SubtitleHeight(firstHeight, ratio), firstHeight, ratio.num);
  }

  lemma MulCancel(a: nat, b: nat, c: nat)
    requires c > 0 && a * c <= b * c
    ensures a <= b
  {
  }

  lemma MulMono(a: nat, b: nat, c: nat)
    requires a <= b
    ensures c * a <= c * b
  {
  }

  /**
   * The bands tile the canvas below the first image: the first starts at its
   * bottom, each ends where the next starts, the last ends at the canvas bottom.
   */
  lemma BandsTile(firstHeight: nat, bandHeight: nat, count: nat)
    requires count >= 2
    ensures BandTop(firstHeight, bandHeight, 1) == firstHeight
    ensures forall i :: 1 <= i < count - 1 ==>
      BandTop(firstHeight, bandHeight, i) + bandHeight == BandTop(firstHeight, bandHeight, i + 1)
    ensures BandTop(firstHeight, bandHeight, count - 1) + bandHeight == CanvasHeight(firstHeight, bandHeight, count)
  {
  }

  /** An earlier band ends at or above the top of a later one: bands never overlap. */
  lemma BandsDisjoint(firstHeight: nat, bandHeight: nat, i: nat, j: nat)
    requires 1 <= i < j
    ensures BandTop(firstHeight, bandHeight, i) + bandHeight <= BandTop(firstHeight, bandHeight, j)
  {
    MulMono(i, j - 1, bandHeight);
  }

  /** The canvas for `count` images is the canvas for one fewer plus one band at its bottom. */
  lemma CanvasGrows(firstHeight: nat, bandHeight: nat, count: nat)
    requires count >= 2
    ensures CanvasHeight(firstHeight, bandHeight, count - 1) == BandTop(firstHeight, bandHeight, count - 1)
    ensures CanvasHeight(firstHeight, bandHeight, count) == BandTop(firstHeight, bandHeight, count - 1) + bandHeight
  {
  }

  /** Band `i` of `count` images lies inside the canvas. */
  lemma BandInsideCanvas(firstHeight: nat, bandHeight: nat, i: nat, count: nat)
    requires 1 <= i < count
    ensures BandTop(firstHeight, bandHeight, i) + bandHeight <= CanvasHeight(firstHeight, bandHeight, count)
  {
    BandsDisjoint(firstHeight, bandHeight, i, count);
  }

  /** Every canvas row is written by exactly one of the `count` pastes. */
  lemma RowWrittenOnce(firstHeight: nat, bandHeight: nat, count: nat, y: nat)
    requires count >= 1 && y < CanvasHeight(firstHeight, bandHeight, count)
    ensures WriterOf(firstHeight, bandHeight, y) < count
    ensures Covers(firstHeight, bandHeight, WriterOf(firstHeight, bandHeight, y), y)
    ensures forall k :: 0 <= k < count ==> (Covers(firstHeight, bandHeight, k, y) <==> k == WriterOf(firstHeight, bandHeight, y))
  {
    var w := WriterOf(firstHeight, bandHeight, y);
    if y >= firstHeight {
      assert bandHeight > 0;
      var q, r := (y - firstHeight) / bandHeight, (y - firstHeight) % bandHeight;
      assert y - firstHeight == bandHeight * q + r && 0 <= r < bandHeight;
      assert w == q + 1;
      assert BandTop(firstHeight, bandHeight, w) == firstHeight + bandHeight * q;
      assert Covers(firstHeight, bandHeight, w, y);
      if w >= count {
        MulMono(count - 1, q, bandHeight);
        assert false;
      }
      forall k | 0 <= k < count && k != w
        ensures !Covers(firstHeight, bandHeight, k, y)
      {
        if 1 <= k < w {
          BandsDisjoint(firstHeight, bandHeight, k, w);
        } else if k > w {
          BandsDisjoint(firstHeight, bandHeight, w, k);
        }
      }
    } else {
      forall k | 1 <= k < count
        ensures !Covers(firstHeight, bandHeight, k, y)
      {
        assert BandTop(firstHeight, bandHeight, k) >= firstHeight;
      }
    }
  }

  /**
   * The crop box is `bandHeight` rows by `targetWidth` columns, ends at the
   * image's bottom, and lies inside the image exactly when the image is at
   * least `bandHeight` tall.
   */
  lemma BandCropBoxInside(imageHeight: nat, bandHeight: nat, targetWidth: nat)
    ensures var b := BandCropBox(imageHeight, bandHeight, targetWidth);
      && b.bottom - b.top == bandHeight && b.right - b.left == targetWidth && b.bottom == imageHeight
      && (BoxInside(b, targetWidth, imageHeight) <==> bandHeight <= imageHeight)
  {
  }

  /**
   * Three 800-pixel-wide screenshots of heights 600, 500 and 550 with ratio 5:
   * 120-row bands at rows 600 and 720 of an 800 by 840 canvas.
   */
  lemma ThreeScreenshotLayout()
    ensures SubtitleHeight(600, Ratio(5, 1)) == 120
    ensures CanvasHeight(600, 120, 3) == 840
    ensures BandTop(600, 120, 1) == 600 && BandTop(600, 120, 2) == 720
    ensures BandCropBox(500, 120, 800) == Box(0, 380, 800, 500)
    ensures ResizedHeight(400, 300, 800) == 600
  {
  }
}
