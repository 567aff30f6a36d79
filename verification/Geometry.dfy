/**
 * Grid geometry of src/renderer.js: the target aspect ratio, the number of
 * glyph rows for a column count, and the "contain" rectangle the image is
 * drawn into. Arithmetic is exact (`real` is the rationals); the source
 * computes the same expressions in double precision.
 */
module Geometry {
  import opened Arith

  /** `'auto'` (use the image's own ratio) or an explicit `"w:h"`. */
  datatype Aspect = Auto | Ratio(w: pos, h: pos)

  /** Width / height of one glyph cell. */
  const FontAspect: real := 0.6

  datatype Dimensions = Dimensions(width: real, height: real, ratio: real)

  /**
   * getTargetDimensions: the width is always the image width; the ratio is
   * the image's own for `'auto'`, otherwise `w/h` whatever the image is.
   */
  function TargetDimensions(aspect: Aspect, imgWidth: pos, imgHeight: pos): (d: Dimensions)
    ensures d.ratio > 0.0 && d.height > 0.0
    ensures d.width == imgWidth as real && d.width / d.height == d.ratio
    ensures aspect.Auto? ==> d.ratio == imgWidth as real / imgHeight as real && d.height == imgHeight as real
    ensures aspect.Ratio? ==> d.ratio == aspect.w as real / aspect.h as real
  {
    match aspect
    case Auto =>
      Dimensions(imgWidth as real, imgHeight as real, imgWidth as real / imgHeight as real)
    case Ratio(w, h) =>
      var targetRatio := w as real / h as real;
      Dimensions(imgWidth as real, imgWidth as real / targetRatio, targetRatio)
  }

  /** An explicit ratio does not depend on the image. */
  lemma ExplicitRatioIgnoresImage(w: pos, h: pos, w1: pos, h1: pos, w2: pos, h2: pos)
    ensures TargetDimensions(Ratio(w, h), w1, h1).ratio == TargetDimensions(Ratio(w, h), w2, h2).ratio
  {
  }

  /** `Math.floor(cols / targetRatio * fontAspectRatio)`; no lower clamp. */
  function GridRows(cols: nat, ratio: real): (rows: int)
    requires ratio > 0.0
    ensures rows >= 0
  {
    (cols as real / ratio * FontAspect).Floor
  }

  /** For a ratio `w/h` the row count is the integer quotient `3·cols·h / 5·w`. */
  lemma GridRowsClosedForm(cols: nat, w: pos, h: pos)
    ensures GridRows(cols, w as real / h as real) == (3 * cols * h) / (5 * w)
  {
    var c, wr, hr := cols as real, w as real, h as real;
    calc {
      c / (wr / hr) * FontAspect;
      c * hr / wr * (3.0 / 5.0);
      { assert (3 * cols * h) as real == 3.0 * c * hr; assert (5 * w) as real == 5.0 * wr; }
      (3 * cols * h) as real / (5 * w) as real;
    }
    FloorOfQuotient(3 * cols * h, 5 * w);
  }

  /** Rows are zero exactly when the grid is too narrow for one row: `3·cols·h < 5·w`. */
  lemma RowsZeroIff(cols: nat, w: pos, h: pos)
    ensures GridRows(cols, w as real / h as real) == 0 <==> 3 * cols * h < 5 * w
  {
    GridRowsClosedForm(cols, w, h);
    QuotientZeroIff(3 * cols * h, 5 * w);
  }

  /** A 1920×1080 image at 100 columns with `'auto'` has 33 rows. */
  lemma HundredColumnsOfFullHd()
    ensures GridRows(100, TargetDimensions(Auto, 1920, 1080).ratio) == 33
  {
    GridRowsClosedForm(100, 1920, 1080);
  }

  /** `imgRatio / 0.6`: the image's ratio measured in grid cells. */
  function GridImageRatio(imgWidth: pos, imgHeight: pos): (g: real)
    ensures g > 0.0
  {
    (imgWidth as real / imgHeight as real) / FontAspect
  }

  datatype Rect = Rect(width: real, height: real)

  /**
   * The draw rectangle of `render`: fit to the width when the image is
   * relatively wider than the grid, otherwise fit to the height. When
   * `rows` is 0 the comparison with `cols / 0` (Infinity or NaN) is false.
   * The result keeps the image's grid ratio and fits inside the grid,
   * touching it on at least one side.
   */
  function DrawRect(imgWidth: pos, imgHeight: pos, cols: nat, rows: nat): (r: Rect)
    ensures r.width == r.height * GridImageRatio(imgWidth, imgHeight)
    ensures rows > 0 ==> 0.0 <= r.width <= cols as real && 0.0 <= r.height <= rows as real
    ensures rows > 0 ==> r.width == cols as real || r.height == rows as real
    ensures rows > 0 && cols > 0 ==> r.width > 0.0 && r.height > 0.0
  {
    var g := GridImageRatio(imgWidth, imgHeight);
    if rows > 0 && g > cols as real / rows as real then
      var r := Rect(cols as real, cols as real / g);
      assert r.height <= rows as real by {
        BelowQuotient(g, cols as real, rows as real);
        BelowQuotient(rows as real, cols as real, g);
      }
      r
    else
      var r := Rect(rows as real * g, rows as real);
      assert rows > 0 ==> r.width <= cols as real by {
        if rows > 0 {
          BelowQuotient(g, cols as real, rows as real);
        }
      }
      r
  }

  /** A square 100×100 grid and a square image: letterboxed to 100 wide, 60 high. */
  lemma SquareImageInSquareGrid()
    ensures DrawRect(1000, 1000, 100, 100) == Rect(100.0, 60.0)
  {
  }
}
