/**
 * Images as pixel grids, the operations the merge asks of the imaging
 * library (resize, crop, paste), and width normalisation.
 */
module Raster {
  import opened Layout

  /** An 8-bit RGB pixel, the mode of the output canvas. */
  datatype Pixel = Rgb(red: bv8, green: bv8, blue: bv8)

  /** The canvas background. */
  const White := Rgb(255, 255, 255)

  /** A decoded image: `pixels[y][x]` is the pixel in row `y`, column `x`. */
  datatype Image = Image(width: nat, height: nat, pixels: seq<seq<Pixel>>) {
    predicate Valid() {
      |pixels| == height && forall y :: 0 <= y < height ==> |pixels[y]| == width
    }
  }

  /** What decoding a PNG file yields: a well-formed image at least one pixel wide and tall. */
  predicate Decoded(img: Image) {
    img.Valid() && img.width > 0 && img.height > 0
  }

  /**
   * The LANCZOS resize is opaque: all that is known of `resample(img, w, h)`
   * is that it is a well-formed image of `w` columns and `h` rows.
   */
  ghost predicate IsResampler(resample: (Image, nat, nat) -> Image) {
    forall img, w, h :: resample(img, w, h).Valid() && resample(img, w, h).width == w && resample(img, w, h).height == h
  }

  /** `img.crop(box)` for a box inside the image. */
  function Crop(img: Image, box: Box): (c: Image)
    requires img.Valid() && BoxInside(box, img.width, img.height)
    ensures c.Valid() && c.width == box.right - box.left && c.height == box.bottom - box.top
    ensures forall y, x :: 0 <= y < c.height && 0 <= x < c.width ==> c.pixels[y][x] == img.pixels[box.top + y][box.left + x]
  {
    var w, h := box.right - box.left, box.bottom - box.top;
    Image(w, h, seq(h, y requires 0 <= y < h => img.pixels[box.top + y][box.left..box.right]))
  }

  /** The bottom `bandHeight` rows of an image. */
  function BottomRows(img: Image, bandHeight: nat): seq<seq<Pixel>>
    requires img.Valid() && bandHeight <= img.height
  {
    img.pixels[img.height - bandHeight..]
  }

  /** Cropping the band box of a full-width image gives exactly its bottom `bandHeight` rows. */
  lemma CropBandIsBottomRows(img: Image, bandHeight: nat)
    requires img.Valid() && bandHeight <= img.height
    ensures BoxInside(BandCropBox(img.height, bandHeight, img.width), img.width, img.height)
    ensures Crop(img, BandCropBox(img.height, bandHeight, img.width)).pixels == BottomRows(img, bandHeight)
  {
    var c := Crop(img, BandCropBox(img.height, bandHeight, img.width));
    var b := BottomRows(img, bandHeight);
    forall y | 0 <= y < bandHeight ensures c.pixels[y] == b[y] {
      assert |c.pixels[y]| == |b[y]| == img.width;
    }
  }

  /**
   * `img.crop((0, height - bandHeight, width, height))`: the subtitle band,
   * the bottom `bandHeight` rows of the image at full width.
   */
  function CropBand(img: Image, bandHeight: nat): (band: Image)
    requires img.Valid() && bandHeight <= img.height
    ensures band.Valid() && band.width == img.width && band.height == bandHeight
    ensures band.pixels == BottomRows(img, bandHeight)
  {
    CropBandIsBottomRows(img, bandHeight);
    Crop(img, BandCropBox(img.height, bandHeight, img.width))
  }

  /**
   * One later image after width normalisation: resampled to the target width
   * and the truncated proportional height, or passed through when its width
   * already matches.
   */
  function NormalizeWidth(img: Image, targetWidth: nat, resample: (Image, nat, nat) -> Image): (r: Image)
    requires Decoded(img) && IsResampler(resample)
    ensures r.Valid() && r.width == targetWidth
    ensures img.width == targetWidth ==> r == img
    ensures img.width != targetWidth ==> r.height * img.width <= img.height * targetWidth < (r.height + 1) * img.width
  {
    if img.width != targetWidth then
      resample(img, targetWidth, ResizedHeight(img.width, img.height, targetWidth))
    else
      img
  }

  /**
   * The loop building `resized_images`: the first image as it is, every later
   * one normalised to the first image's width.
   */
  method NormalizeWidths(images: seq<Image>, resample: (Image, nat, nat) -> Image) returns (resized: seq<Image>)
    requires |images| >= 1 && IsResampler(resample)
    requires forall i :: 0 <= i < |images| ==> Decoded(images[i])
    ensures |resized| == |images| && resized[0] == images[0]
    ensures forall i :: 1 <= i < |images| ==> resized[i] == NormalizeWidth(images[i], images[0].width, resample)
    ensures forall i :: 0 <= i < |resized| ==> resized[i].Valid() && resized[i].width == images[0].width
  {
    var targetWidth := images[0].width;
    resized := [images[0]];
    for i := 1 to |images|
      invariant |resized| == i && resized[0] == images[0]
      invariant forall k :: 1 <= k < i ==> resized[k] == NormalizeWidth(images[k], targetWidth, resample)
      invariant forall k :: 0 <= k < i ==> resized[k].Valid() && resized[k].width == targetWidth
    {
      resized := resized + [NormalizeWidth(images[i], targetWidth, resample)];
    }
  }

  /**
   * `canvas.paste(src, (left, top))` for a source that fits: the rectangle it
   * covers takes the source's pixels and every other pixel is left as it was.
   */
  method Paste(canvas: array2<Pixel>, src: Image, left: nat, top: nat)
    requires src.Valid() && left + src.width <= canvas.Length1 && top + src.height <= canvas.Length0
    modifies canvas
    ensures forall y, x :: 0 <= y < canvas.Length0 && 0 <= x < canvas.Length1 ==>
      canvas[y, x] == if top <= y < top + src.height && left <= x < left + src.width
                      then src.pixels[y - top][x - left]
                      else old(canvas[y, x])
  {
    for r := 0 to src.height
      invariant forall y, x :: 0 <= y < canvas.Length0 && 0 <= x < canvas.Length1 ==>
        canvas[y, x] == if top <= y < top + r && left <= x < left + src.width
                        then src.pixels[y - top][x - left]
                        else old(canvas[y, x])
    {
      for c := 0 to src.width
        invariant forall y, x :: 0 <= y < canvas.Length0 && 0 <= x < canvas.Length1 ==>
          canvas[y, x] == if (top <= y < top + r && left <= x < left + src.width) || (y == top + r && left <= x < left + c)
                          then src.pixels[y - top][x - left]
                          else old(canvas[y, x])
      {
        canvas[top + r, left + c] := src.pixels[r][c];
      }
    }
  }
}
