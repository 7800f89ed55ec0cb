/**
 * The merge itself: the rows the canvas must end up holding, the paste loop
 * that fills an `array2` canvas with them, and the whole operation from the
 * folder listing to the canvas.
 */
module Compositor {
  import opened Outcomes
  import opened Selection
  import opened Layout
  import opened Raster

  /**
   * The normalised images can be stacked with bands of `bandHeight` rows:
   * all well formed, all as wide as the first, every later one tall enough.
   */
  predicate Stackable(images: seq<Image>, bandHeight: nat) {
    && |images| >= 1
    && (forall i :: 0 <= i < |images| ==> images[i].Valid() && images[i].width == images[0].width)
    && (forall i :: 1 <= i < |images| ==> bandHeight <= images[i].height)
  }

  /**
   * The rows of the finished canvas: the whole first image, then the bottom
   * `bandHeight` rows of each later image in order.
   */
  function StackedRows(images: seq<Image>, bandHeight: nat): (rows: seq<seq<Pixel>>)
    requires Stackable(images, bandHeight)
    ensures |rows| == CanvasHeight(images[0].height, bandHeight, |images|)
    ensures forall y :: 0 <= y < |rows| ==> |rows[y]| == images[0].width
    decreases |images|
  {
    if |images| == 1 then images[0].pixels
    else
      var prefix := images[..|images| - 1];
      assert Stackable(prefix, bandHeight);
      StackedRows(prefix, bandHeight) + BottomRows(images[|images| - 1], bandHeight)
  }

  /** The first `firstHeight` rows of the canvas are the first image. */
  lemma {:induction false} StackedRowsFirst(images: seq<Image>, bandHeight: nat, y: nat)
    requires Stackable(images, bandHeight) && y < images[0].height
    ensures StackedRows(images, bandHeight)[y] == images[0].pixels[y]
    decreases |images|
  {
    if |images| > 1 {
      var prefix := images[..|images| - 1];
      assert Stackable(prefix, bandHeight);
      StackedRowsFirst(prefix, bandHeight, y);
    }
  }

  /** Stacking one more image appends its bottom band to the rows so far. */
  lemma StackedRowsExtend(images: seq<Image>, bandHeight: nat, i: nat)
    requires Stackable(images, bandHeight) && 1 <= i < |images|
    ensures Stackable(images[..i], bandHeight) && Stackable(images[..i + 1], bandHeight)
    ensures |StackedRows(images[..i], bandHeight)| == BandTop(images[0].height, bandHeight, i)
    ensures StackedRows(images[..i + 1], bandHeight)
         == StackedRows(images[..i], bandHeight) + BottomRows(images[i], bandHeight)
  {
    assert Stackable(images[..i], bandHeight);
    assert Stackable(images[..i + 1], bandHeight);
    assert images[..i + 1][..i] == images[..i];
    CanvasGrows(images[0].height, bandHeight, i + 1);
  }

  /** Row `k` of band `i` is row `height - bandHeight + k` of image `i`. */
  lemma {:induction false} StackedRowsBand(images: seq<Image>, bandHeight: nat, i: nat, k: nat)
    requires Stackable(images, bandHeight) && 1 <= i < |images| && k < bandHeight
    ensures BandTop(images[0].height, bandHeight, i) + k < CanvasHeight(images[0].height, bandHeight, |images|)
    ensures StackedRows(images, bandHeight)[BandTop(images[0].height, bandHeight, i) + k]
         == images[i].pixels[images[i].height - bandHeight + k]
    decreases |images|
  {
    var n := |images|;
    var h0 := images[0].height;
    BandInsideCanvas(h0, bandHeight, i, n);
    StackedRowsExtend(images, bandHeight, n - 1);
    assert images[..n] == images;
    var prefix := images[..n - 1];
    if i < n - 1 {
      StackedRowsBand(prefix, bandHeight, i, k);
    }
  }

  /**
   * Every canvas row holds the row put there by the one paste that writes it
   * (`WriterOf`, unique by `RowWrittenOnce`): the first image's row, or a row
   * of the bottom band of image `WriterOf(y)`.
   */
  lemma CanvasRowSource(images: seq<Image>, bandHeight: nat, y: nat)
    requires Stackable(images, bandHeight)
    requires y < CanvasHeight(images[0].height, bandHeight, |images|)
    ensures WriterOf(images[0].height, bandHeight, y) < |images|
    ensures Covers(images[0].height, bandHeight, WriterOf(images[0].height, bandHeight, y), y)
    ensures y < images[0].height ==> StackedRows(images, bandHeight)[y] == images[0].pixels[y]
    ensures y >= images[0].height ==>
      var w := WriterOf(images[0].height, bandHeight, y);
      StackedRows(images, bandHeight)[y]
        == images[w].pixels[images[w].height - bandHeight + (y - BandTop(images[0].height, bandHeight, w))]
  {
    RowWrittenOnce(images[0].height, bandHeight, |images|, y);
    if y < images[0].height {
      StackedRowsFirst(images, bandHeight, y);
    } else {
      BandRowSource(images, bandHeight, y);
    }
  }

  /** A canvas row below the first image is a row of the bottom band of image `WriterOf(y)`. */
  lemma BandRowSource(images: seq<Image>, bandHeight: nat, y: nat)
    requires Stackable(images, bandHeight)
    requires images[0].height <= y < CanvasHeight(images[0].height, bandHeight, |images|)
    ensures var w := WriterOf(images[0].height, bandHeight, y);
      && 1 <= w < |images|
      && StackedRows(images, bandHeight)[y]
         == images[w].pixels[images[w].height - bandHeight + (y - BandTop(images[0].height, bandHeight, w))]
  {
    var h0 := images[0].height;
    RowWrittenOnce(h0, bandHeight, |images|, y);
    var w := WriterOf(h0, bandHeight, y);
    assert Covers(h0, bandHeight, w, y) && w != 0;
    var k := y - BandTop(h0, bandHeight, w);
    assert k < bandHeight <= images[w].height;
    StackedRowsBand(images, bandHeight, w, k);
  }

  /**
   * The canvas holds `rows` from its top down and is white below them
   * (a row too short for a column also leaves that pixel white).
   */
  ghost predicate ShowsRows(canvas: array2<Pixel>, rows: seq<seq<Pixel>>)
    reads canvas
  {
    forall y, x :: 0 <= y < canvas.Length0 && 0 <= x < canvas.Length1 ==>
      canvas[y, x] == if y < |rows| && x < |rows[y]| then rows[y][x] else White
  }

  /** `new_image.paste(resized_images[0], (0, 0))` on the blank canvas. */
  method PasteFirst(canvas: array2<Pixel>, first: Image)
    requires first.Valid() && first.width == canvas.Length1 && first.height <= canvas.Length0
    requires ShowsRows(canvas, [])
    modifies canvas
    ensures ShowsRows(canvas, first.pixels)
  {
    Paste(canvas, first, 0, 0);
    forall y, x | 0 <= y < canvas.Length0 && 0 <= x < canvas.Length1
      ensures canvas[y, x] == if y < |first.pixels| && x < |first.pixels[y]| then first.pixels[y][x] else White
    {
      if y >= first.height {
        assert canvas[y, x] == old(canvas[y, x]);
      }
    }
  }

  /**
   * One iteration of the band loop: crop the bottom `bandHeight` rows of `img`
   * at full width and paste them at `yPosition`, right below the rows already
   * on the canvas.
   */
  method PasteBand(canvas: array2<Pixel>, ghost rows: seq<seq<Pixel>>, img: Image, bandHeight: nat, yPosition: nat)
    requires img.Valid() && img.width == canvas.Length1 && bandHeight <= img.height
    requires yPosition == |rows| && yPosition + bandHeight <= canvas.Length0
    requires forall y :: 0 <= y < |rows| ==> |rows[y]| == canvas.Length1
    requires ShowsRows(canvas, rows)
    modifies canvas
    ensures ShowsRows(canvas, rows + BottomRows(img, bandHeight))
  {
    var subtitle := CropBand(img, bandHeight);
    ghost var before := Snapshot(canvas);
    Paste(canvas, subtitle, 0, yPosition);
    BandPasted(canvas, before, rows, subtitle);
  }

  /** The canvas's pixels as a value, row by row. */
  ghost function Snapshot(canvas: array2<Pixel>): (rows: seq<seq<Pixel>>)
    reads canvas
    ensures |rows| == canvas.Length0
    ensures forall y :: 0 <= y < canvas.Length0 ==> |rows[y]| == canvas.Length1
    ensures forall y, x :: 0 <= y < canvas.Length0 && 0 <= x < canvas.Length1 ==> rows[y][x] == canvas[y, x]
  {
    seq(canvas.Length0, y requires 0 <= y < canvas.Length0 reads canvas =>
      seq(canvas.Length1, x requires 0 <= x < canvas.Length1 reads canvas => canvas[y, x]))
  }

  /**
   * A canvas that showed `rows` (its pixels were `before`) and then had
   * `subtitle` pasted at column 0 right below `rows` shows `rows` followed
   * by the band.
   */
  lemma BandPasted(canvas: array2<Pixel>, before: seq<seq<Pixel>>, rows: seq<seq<Pixel>>, subtitle: Image)
    requires subtitle.Valid() && subtitle.width == canvas.Length1
    requires forall y :: 0 <= y < |rows| ==> |rows[y]| == canvas.Length1
    requires |before| == canvas.Length0 && forall y :: 0 <= y < |before| ==> |before[y]| == canvas.Length1
    requires forall y, x :: 0 <= y < canvas.Length0 && 0 <= x < canvas.Length1 ==>
      before[y][x] == if y < |rows| && x < |rows[y]| then rows[y][x] else White
    requires forall y, x :: 0 <= y < canvas.Length0 && 0 <= x < canvas.Length1 ==>
      canvas[y, x] == if |rows| <= y < |rows| + subtitle.height
                      then subtitle.pixels[y - |rows|][x]
                      else before[y][x]
    ensures ShowsRows(canvas, rows + subtitle.pixels)
  {
    var next := rows + subtitle.pixels;
    forall y, x | 0 <= y < canvas.Length0 && 0 <= x < canvas.Length1
      ensures canvas[y, x] == if y < |next| && x < |next[y]| then next[y][x] else White
    {
      if y < |rows| {
        assert next[y] == rows[y];
      } else if y < |next| {
        assert next[y] == subtitle.pixels[y - |rows|];
      }
    }
  }

  /**
   * Allocates the white canvas and runs the pastes: the first image at the
   * origin, then band `i` at `y_position` for each later image. Afterwards
   * every canvas pixel is the one `StackedRows` puts there.
   */
  method Compose(resized: seq<Image>, ratio: PositiveRatio) returns (canvas: array2<Pixel>)
    requires |resized| >= 1 && Stackable(resized, SubtitleHeight(resized[0].height, ratio))
    ensures fresh(canvas)
    ensures canvas.Length1 == resized[0].width
    ensures canvas.Length0 == CanvasHeight(resized[0].height, SubtitleHeight(resized[0].height, ratio), |resized|)
    ensures forall y, x :: 0 <= y < canvas.Length0 && 0 <= x < canvas.Length1 ==>
      canvas[y, x] == StackedRows(resized, SubtitleHeight(resized[0].height, ratio))[y][x]
  {
    var targetWidth := resized[0].width;
    var firstHeight := resized[0].height;
    var subtitleHeight := SubtitleHeight(firstHeight, ratio);
    var totalHeight := CanvasHeight(firstHeight, subtitleHeight, |resized|);
    canvas := new Pixel[totalHeight, targetWidth]((_, _) => White);
    assert ShowsRows(canvas, []);
    PasteFirst(canvas, resized[0]);
    assert Stackable(resized[..1], subtitleHeight);
    assert StackedRows(resized[..1], subtitleHeight) == resized[0].pixels;
    for i := 1 to |resized|
      invariant Stackable(resized[..i], subtitleHeight)
      invariant ShowsRows(canvas, StackedRows(resized[..i], subtitleHeight))
    {
      var yPosition := BandTop(firstHeight, subtitleHeight, i);
      BandInsideCanvas(firstHeight, subtitleHeight, i, |resized|);
      StackedRowsExtend(resized, subtitleHeight, i);
      PasteBand(canvas, StackedRows(resized[..i], subtitleHeight), resized[i], subtitleHeight, yPosition);
    }
    assert resized[..|resized|] == resized;
  }

  /** What a successful merge produced: the files it stacked, the canvas, and the band height. */
  datatype Merged = Merged(files: seq<string>, canvas: array2<Pixel>, subtitleHeight: nat)

  /** Every file decodes to a PNG image (decoding failures are not modelled). */
  ghost predicate DecodesAll(load: string -> Image) {
    forall name :: Decoded(load(name))
  }

  /** `resized_images` for the given files: the first as loaded, the others width-normalised. */
  ghost function NormalizedImages(files: seq<string>, load: string -> Image, resample: (Image, nat, nat) -> Image): (images: seq<Image>)
    requires |files| >= 1 && DecodesAll(load) && IsResampler(resample)
    ensures |images| == |files| && images[0] == load(files[0])
    ensures forall i :: 0 <= i < |images| ==> images[i].Valid() && images[i].width == load(files[0]).width
  {
    seq(|files|, i requires 0 <= i < |files| =>
      if i == 0 then load(files[0]) else NormalizeWidth(load(files[i]), load(files[0]).width, resample))
  }

  /**
   * The selected files can be stacked: there are at least two of them and every
   * later image, once width-normalised, is at least as tall as the band cut from it.
   */
  ghost predicate MergeFits(files: seq<string>, load: string -> Image, ratio: PositiveRatio, resample: (Image, nat, nat) -> Image)
    requires DecodesAll(load) && IsResampler(resample)
  {
    && |files| >= 2
    && var images := NormalizedImages(files, load, resample);
       Stackable(images, SubtitleHeight(images[0].height, ratio))
  }

  /**
   * `merge_screenshots_with_subtitles` without its file I/O: `listing` is the
   * folder listing, `load` decodes a file, `resample` is the resize filter.
   * With two or more `.png` names it succeeds exactly when the one possible
   * selection fits (`MergeFits`). On success the canvas is as wide as the first
   * image, as tall as the closed-form canvas height, and holds exactly the
   * stacked rows.
   */
  method MergeScreenshots(
    listing: seq<string>,
    load: string -> Image,
    resample: (Image, nat, nat) -> Image,
    ratio: PositiveRatio := DefaultRatio
  ) returns (r: Result<Merged, MergeError>)
    requires DecodesAll(load) && IsResampler(resample)
    ensures (r.Failure? && r.error == TooFewImages) <==> |PngNames(listing)| < 2
    ensures forall files :: IsSelection(listing, files) && |files| >= 2 ==>
      (r.Success? <==> MergeFits(files, load, ratio, resample))
    ensures r.Success? ==> IsSelection(listing, r.value.files) && |r.value.files| >= 2 && fresh(r.value.canvas)
    ensures r.Success? ==>
      var first := load(r.value.files[0]);
      var sh := r.value.subtitleHeight;
      var images := NormalizedImages(r.value.files, load, resample);
      && sh == SubtitleHeight(first.height, ratio)
      && Stackable(images, sh)
      && r.value.canvas.Length1 == first.width
      && r.value.canvas.Length0 == CanvasHeight(first.height, sh, |images|)
      && ShowsRows(r.value.canvas, StackedRows(images, sh))
  {
    var selected := SelectImages(listing);
    if selected.Failure? {
      return Failure(selected.error);
    }
    var files := selected.value;
    var images := seq(|files|, i requires 0 <= i < |files| => load(files[i]));
    var resized := NormalizeWidths(images, resample);
    assert resized == NormalizedImages(files, load, resample);
    var subtitleHeight := SubtitleHeight(resized[0].height, ratio);
    SelectionUnique(listing, files);
    if exists i :: 1 <= i < |resized| && resized[i].height < subtitleHeight {
      assert !MergeFits(files, load, ratio, resample);
      return Failure(BandTallerThanImage);
    }
    assert MergeFits(files, load, ratio, resample);
    var canvas := Compose(resized, ratio);
    return Success(Merged(files, canvas, subtitleHeight));
  }
}
