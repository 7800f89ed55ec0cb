# caption_stack in Dafny

`caption_stack.py` merges a folder of screenshots into one tall image. The
first screenshot is kept whole. Below it goes a fixed-height strip, the
"subtitle band", taken from the bottom of each later screenshot. This project
models the one function that does this, `merge_screenshots_with_subtitles`,
in five modules:

- `Outcomes` (outcomes.dfy): the `Result` type and the two ways a merge can
  fail.
- `Selection` (selection.dfy): choosing the files. It keeps the names that end
  in `.png` in any letter case. It sorts them in place with Python's string
  order, which is lexicographic by code point. Fewer than two names is an
  error.
- `Layout` (layout.dfy): the integer geometry. This covers the truncated
  height of a resized image, `subtitle_height = int(h0 / ratio)`, the canvas
  height, each band's `y_position` and its crop box. It also proves that every
  canvas row belongs to exactly one paste.
- `Raster` (raster.dfy): images as pixel grids and the three imaging-library
  operations the function uses:
  - resize, kept opaque except for its output size;
  - crop;
  - paste into an `array2` canvas, done in place.
  It also holds the loop that normalises every image to the first one's
  width.
- `Compositor` (compositor.dfy): the paste loop over a white `array2` canvas
  and the whole merge, from folder listing to canvas. `StackedRows` specifies
  the finished canvas: the first image's rows, then each later image's bottom
  band in order.

The program divides in floating point: `target_width / width` and
`h0 / subtitle_ratio`. The model uses exact rational arithmetic instead. The
ratio is a positive fraction `num/den`, and `int()` of a non-negative value is
the floor of the exact quotient. A resized height is truncated by `int()`
(caption_stack.py:38), not rounded to the nearest integer.

## Model

| member | source | states |
|---|---|---|
| `Selection.IsPngName` | caption_stack.py:20 | `f.lower().endswith('.png')`. `IsPngNameByLastFour` states it as a test on the last four characters, and `PngNames` keeps exactly the names that pass it. |
| `Selection.LessEq` | caption_stack.py:21 | Python's string order: lexicographic by code point, a proper prefix first. `LessEqReflexive`, `LessEqTotal`, `LessEqAntisymmetric` and `LessEqTransitive` prove it a total order, so `sort()` is well defined. |
| `Selection.PngNames` | caption_stack.py:20 | Each name appears in the result as often as in the listing if it passes the `.png` test, and not at all otherwise. So the result has every `.png` name and no other name. |
| `Selection.IsPngNameByLastFour` | caption_stack.py:20 | `name.lower().endswith('.png')` holds exactly when the last four characters are `.`, `p`/`P`, `n`/`N`, `g`/`G`. |
| `Selection.LessEqReflexive` | caption_stack.py:21 | Every string is ordered before or equal to itself. |
| `Selection.LessEqTotal` | caption_stack.py:21 | Any two strings are comparable in Python's string order. |
| `Selection.LessEqAntisymmetric` | caption_stack.py:21 | Two strings each ordered before the other are equal. |
| `Selection.LessEqTransitive` | caption_stack.py:21 | The string order is transitive. |
| `Selection.ChainedIsSorted` | caption_stack.py:21 | If each neighbour pair is in order, every pair is in order. |
| `Selection.SortedUnique` | caption_stack.py:21 | Two sorted sequences with the same elements are identical, so a sort has only one possible result. |
| `Selection.SortNames` | caption_stack.py:21 | `image_files.sort()` in place: afterwards the array is sorted and is a permutation of what it held before. |
| `Selection.InsertIntoPrefix` | caption_stack.py:21 | One insertion step: the element at `i` moves into the sorted prefix, which stays sorted one element longer; the elements after `i` are untouched, and the array stays a permutation of itself. |
| `Selection.SwapAdjacent` | caption_stack.py:21 | Swaps two neighbours, leaves every other element alone and keeps the same elements. |
| `Selection.SelectImages` | caption_stack.py:20-24 | Fails with `TooFewImages` exactly when fewer than two names pass the filter. Otherwise it returns the filtered names, sorted ascending, each as often as listed. |
| `Selection.SelectionExact` | caption_stack.py:20-21 | A selection holds exactly the listed `.png` names and has as many entries as the filter keeps. |
| `Selection.SelectionUnique` | caption_stack.py:20-21 | A listing has exactly one selection: any two sequences that are a sorted arrangement of its `.png` names are equal. |
| `Selection.SelectionDeterministic` | caption_stack.py:20-21 | Two listings with the same names in any order give the same selection, so the stacking order depends only on the file names. |
| `Layout.ResizedHeight` | caption_stack.py:37-38 | The normalised height `h'` is the floor of `height * targetWidth / width`: `h' * width <= height * targetWidth < (h' + 1) * width`. |
| `Layout.ResizedHeightSameWidth` | caption_stack.py:35-43 | Resizing to the image's own width would keep its height. |
| `Layout.ResizedHeightTruncates` | caption_stack.py:38 | 100 rows at width 300 become 66 rows at width 200, not 67: the height is truncated, not rounded. |
| `Layout.CanvasHeight` | caption_stack.py:50 | `total_height = h0 + subtitle_height * (n - 1)`. `BandsTile` shows the last band ends there, `CanvasGrows` that one more image adds one band, and `StackedRows` that the stacked rows number exactly this. |
| `Layout.BandTop` | caption_stack.py:61 | `y_position = h0 + subtitle_height * (i - 1)` for band `i`. `BandsTile` and `BandsDisjoint` show the bands follow each other without gap or overlap, and `BandInsideCanvas` that each fits in the canvas. |
| `Layout.BandCropBox` | caption_stack.py:64-69 | The crop box `(0, height - subtitle_height, target_width, height)`. `BandCropBoxInside` gives its size and when it lies inside the image. |
| `Layout.SubtitleHeight` | caption_stack.py:46 | `subtitle_height` is the floor of `h0 / ratio`: `s * num <= h0 * den < (s + 1) * num`. |
| `Layout.SubtitleHeightAtMostFirst` | caption_stack.py:46 | For a ratio of at least 1, the band is no taller than the first image. |
| `Layout.BandsTile` | caption_stack.py:50-61 | Band 1 starts at `h0`, each band ends where the next begins, and the last band ends at `total_height`. |
| `Layout.BandsDisjoint` | caption_stack.py:59-61 | An earlier band ends at or above the start of any later band, so bands never overlap. |
| `Layout.CanvasGrows` | caption_stack.py:50 | The canvas for `n` images is the canvas for `n - 1` images plus one band. The last band starts at the old canvas height. |
| `Layout.BandInsideCanvas` | caption_stack.py:50-61 | Every band lies within `total_height`. |
| `Layout.RowWrittenOnce` | caption_stack.py:50-72 | Each canvas row is covered by exactly one paste: the first image or a single band. |
| `Layout.BandCropBoxInside` | caption_stack.py:64-69 | The crop box spans `subtitle_height` rows and `target_width` columns and ends at the image's bottom. It lies inside the image exactly when the image is at least `subtitle_height` tall. |
| `Layout.ThreeScreenshotLayout` | caption_stack.py:37-69 | Example: heights 600/500/550 at width 800 with ratio 5 give 120-row bands at rows 600 and 720 of an 800x840 canvas. A 400x300 image is normalised to height 600. |
| `Raster.Crop` | caption_stack.py:64-69 | `img.crop(box)` for a box inside the image: the result has the box's size, and each of its pixels is the image pixel at the same offset from the box corner. |
| `Raster.BottomRows` | caption_stack.py:64-69 | The bottom `subtitle_height` rows of an image. `CropBandIsBottomRows` shows cropping the band box yields exactly these rows. |
| `Raster.CropBandIsBottomRows` | caption_stack.py:64-69 | Cropping the band box of a full-width image gives exactly its bottom `subtitle_height` rows. |
| `Raster.CropBand` | caption_stack.py:64-69 | The cropped subtitle band is image-width wide, `subtitle_height` tall, and consists of the image's bottom rows. |
| `Raster.NormalizeWidth` | caption_stack.py:35-43 | A later image comes out `target_width` wide. It is passed through unchanged when already that wide; otherwise its height is the truncated proportional height. |
| `Raster.NormalizeWidths` | caption_stack.py:30-43 | `resized_images` has one image per input. The first is unchanged, each later one is that image normalised, and all are `target_width` wide. |
| `Raster.Paste` | caption_stack.py:72 | `canvas.paste(src, (left, top))`: the covered rectangle takes the source's pixels and every other pixel keeps its value. |
| `Compositor.StackedRows` | caption_stack.py:50-72 | The finished canvas rows number `h0 + subtitle_height * (n - 1)`, and every row is `target_width` wide. |
| `Compositor.StackedRowsFirst` | caption_stack.py:56 | Rows `[0, h0)` of the canvas are the first image's rows. |
| `Compositor.StackedRowsExtend` | caption_stack.py:59-72 | Adding one more image appends its bottom band to the rows stacked so far, starting at that image's `y_position`. |
| `Compositor.StackedRowsBand` | caption_stack.py:59-72 | Row `k` of band `i` is row `height_i - subtitle_height + k` of normalised image `i`. |
| `Compositor.CanvasRowSource` | caption_stack.py:53-72 | Every canvas row is the row put there by the paste that covers it: the first image's row above `h0`, a band row below. |
| `Compositor.BandRowSource` | caption_stack.py:59-72 | A canvas row at or below `h0` is covered by a band `w` with `1 <= w < n`, and equals the matching row of image `w`'s bottom band. |
| `Compositor.PasteFirst` | caption_stack.py:56 | Pasting the first image onto the white canvas puts its rows at the top and leaves the rest white. |
| `Compositor.PasteBand` | caption_stack.py:59-72 | One band iteration: the crop pasted at `y_position` appends the bottom band below the rows already on the canvas and leaves everything else as it was. |
| `Compositor.BandPasted` | caption_stack.py:72 | A canvas that showed the rows stacked so far, after a band is pasted directly below them, shows those rows followed by the band and white below. |
| `Compositor.Compose` | caption_stack.py:46-72 | The canvas is fresh, `target_width` by `h0 + subtitle_height * (n - 1)`, and every pixel is the stacked pixel, so no pixel is left as unpainted background. |
| `Compositor.NormalizedImages` | caption_stack.py:30-43 | `resized_images` for the selected files: one per file, all well formed and as wide as the first. |
| `Compositor.MergeFits` | caption_stack.py:30-69 | The merge can stack the selected files: at least two of them, and every later normalised image is at least `subtitle_height` tall, so its crop box lies inside it. |
| `Compositor.MergeScreenshots` | caption_stack.py:8-72 | Fails with `TooFewImages` exactly when fewer than two `.png` names are listed. With two or more, it succeeds exactly when the (unique) selection fits, so a canvas is produced whenever the crops stay inside their images; the ratio defaults to 6. On success it reports the sorted selection and a fresh canvas of the closed-form size that holds exactly the stacked rows of the normalised images, with the subtitle height reported alongside. |

## Left out

- Folder listing, `Image.open`, `save` and the printed summary (caption_stack.py:20, 27, 75-79) are file and console I/O. The listing is a `seq<string>` parameter and decoding is a function parameter `load`. The summary's data (files, canvas size, subtitle height) is returned instead of printed.
- Decoding errors and unwritable output paths are not modelled. `load` is total and yields a well-formed PNG image at least one pixel wide and tall.
- LANCZOS resampling (caption_stack.py:40) is floating-point work inside the imaging library. It is a function parameter whose only known property is its output size (`IsResampler`). Pixel contents after a resize are opaque.
- Conversion of pasted images to the canvas's RGB mode, including alpha flattening (caption_stack.py:53, 56, 72), is not modelled. Images are taken to be RGB already.
- `IsPngName` lower-cases ASCII letters only, not Python's full Unicode `lower()`. The filter could differ only for a non-ASCII character that lower-cases to `.`, `p`, `n` or `g`.
- Floating-point division in `target_width / width` and `h0 / subtitle_ratio` (caption_stack.py:37, 46) is replaced by exact rational arithmetic. IEEE rounding could make `int()` come out one lower on rare inputs.
- A ratio of zero or below is not modelled; `PositiveRatio` requires both parts to be positive. With such a ratio the program divides by zero or gets a negative or zero band height.
- MergeScreenshots: the program hands the imaging library a crop box with a negative top when a normalised image is shorter than `subtitle_height` (caption_stack.py:66). The library's padding for that case is not visible. The model returns `BandTallerThanImage` instead, and `Compose` requires every later image to be at least band-tall.
- Paste: the model requires the pasted image to fit inside the canvas, which always holds in this program. The library's clipping of oversized pastes is not modelled.
- A resize to height 0, possible when truncation rounds a tiny height down, is passed to the resampler like any other size. What the library does with it is not visible.
- The `__main__` block (caption_stack.py:82-92) is left out: it holds the timestamped output name, the hard-coded folder and the ratio 3.5, which is `Ratio(7, 2)` here. The default ratio 6 is `Layout.DefaultRatio`, the default value of `MergeScreenshots`'s `ratio` parameter.
