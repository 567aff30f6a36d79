/**
 * `render` of src/renderer.js with the canvas operations factored out: the
 * caller supplies the RGBA buffer that `getImageData` returns for the
 * filtered, placed image, and the render fills a rows × cols grid of cells
 * instead of calling `fillText`.
 */
module Renderer {
  import opened Wrappers
  import opened Arith
  import opened Colors
  import opened Geometry
  import opened Tone
  import opened Parameters

  const FontSize: real := 10.0
  /** Output sharpness multiplier of the visible canvas. */
  const DensityScale: real := 2.0

  /**
   * What one render produces: the grid size, the visible canvas size, the
   * background fill, the rectangle the image was drawn into, and one
   * optional cell per grid position.
   */
  datatype Frame = Frame(
    cols: nat, rows: nat,
    canvasWidth: real, canvasHeight: real,
    background: string,
    draw: Rect,
    cells: array2<Option<Cell>>)

  /**
   * No image: nothing happens. Failed: an exception was raised and caught
   * (a grid of zero rows makes `getImageData` throw), nothing was drawn.
   */
  datatype Outcome = NoImage | Failed | Drawn(frame: Frame)

  /** The four bytes of grid position (x, y) in a row-major RGBA buffer. */
  function PixelAt(data: seq<byte>, rows: nat, cols: nat, x: nat, y: nat): (p: Pixel)
    requires x < cols && y < rows && |data| == 4 * rows * cols
    ensures var k := y * cols + x;
            4 * k + 4 <= |data| && [p.r, p.g, p.b, p.a] == data[4 * k .. 4 * k + 4]
  {
    CellIndexInBounds(rows, cols, x, y);
    var i := (y * cols + x) * 4;
    Pixel(data[i], data[i + 1], data[i + 2], data[i + 3])
  }

  /** `Math.floor(cols / targetRatio * 0.6)` for the state's image and aspect. */
  function RowsFor(p: Params): (rows: nat)
    requires p.image.Some?
    ensures p.aspectRatio.Auto? ==> rows == (3 * p.resolution * p.image.value.height) / (5 * p.image.value.width)
    ensures p.aspectRatio.Ratio? ==> rows == (3 * p.resolution * p.aspectRatio.h) / (5 * p.aspectRatio.w)
  {
    var img := p.image.value;
    var w: pos := if p.aspectRatio.Auto? then img.width else p.aspectRatio.w;
    var h: pos := if p.aspectRatio.Auto? then img.height else p.aspectRatio.h;
    GridRowsClosedForm(p.resolution, w, h);
    GridRows(p.resolution, TargetDimensions(p.aspectRatio, img.width, img.height).ratio)
  }

  /** The tint colours are parsed only when colour mode and tint are both on. */
  function ToneFor(p: Params): (t: ToneSettings)
    ensures t.ramp == p.asciiChars && t.invert == p.invert
    ensures t.colorMode == p.colorMode && t.customTint == p.customTint
    ensures p.colorMode && p.customTint ==>
              t.shadow == HexToRgb(p.shadowColor) && t.highlight == HexToRgb(p.highlightColor)
  {
    var tinted := p.colorMode && p.customTint;
    ToneSettings(p.asciiChars, p.invert, p.colorMode, p.customTint,
                 if tinted then HexToRgb(p.shadowColor) else Black,
                 if tinted then HexToRgb(p.highlightColor) else Black)
  }

  /** `state.backgroundColor || '#000000'`: an empty colour falls back to black. */
  function Background(p: Params): (s: string)
    ensures s != ""
    ensures p.backgroundColor != "" ==> s == p.backgroundColor
    ensures p.backgroundColor == "" ==> s == "#000000"
  {
    if p.backgroundColor == "" then "#000000" else p.backgroundColor
  }

  /** The cell a grid position ends with: the mapped cell, or what was there when the sample is skipped. */
  function Overlay(previous: Option<Cell>, mapped: Option<Cell>): Option<Cell>
  {
    if mapped.Some? then mapped else previous
  }

  /**
   * The nested `for y / for x` loop: each position with an opaque enough
   * sample gets its cell; a skipped position (`continue`) is left as it was.
   */
  method FillCells(cells: array2<Option<Cell>>, data: seq<byte>, tone: ToneSettings)
    requires |tone.ramp| >= 1
    requires |data| == 4 * cells.Length0 * cells.Length1
    modifies cells
    ensures forall y, x :: 0 <= y < cells.Length0 && 0 <= x < cells.Length1 ==>
              cells[y, x] == Overlay(old(cells[y, x]), MapCell(PixelAt(data, cells.Length0, cells.Length1, x, y), tone))
  {
    var rows, cols := cells.Length0, cells.Length1;
    var y := 0;
    while y < rows
      invariant 0 <= y <= rows
      invariant forall j, i :: 0 <= j < y && 0 <= i < cols ==>
                  cells[j, i] == Overlay(old(cells[j, i]), MapCell(PixelAt(data, rows, cols, i, j), tone))
      invariant forall j, i :: y <= j < rows && 0 <= i < cols ==> cells[j, i] == old(cells[j, i])
    {
      var x := 0;
      while x < cols
        invariant 0 <= x <= cols
        invariant forall j, i :: 0 <= j < y && 0 <= i < cols ==>
                    cells[j, i] == Overlay(old(cells[j, i]), MapCell(PixelAt(data, rows, cols, i, j), tone))
        invariant forall i :: 0 <= i < x ==>
                    cells[y, i] == Overlay(old(cells[y, i]), MapCell(PixelAt(data, rows, cols, i, y), tone))
        invariant forall i :: x <= i < cols ==> cells[y, i] == old(cells[y, i])
        invariant forall j, i :: y < j < rows && 0 <= i < cols ==> cells[j, i] == old(cells[j, i])
      {
        var cell := MapCell(PixelAt(data, rows, cols, x, y), tone);
        if cell.Some? {
          cells[y, x] := cell;
        }
        x := x + 1;
      }
      y := y + 1;
    }
  }

  /** Everything a successful render promises about its frame. */
  ghost predicate FrameOf(f: Frame, p: Params, sampled: seq<byte>)
    requires p.image.Some? && |p.asciiChars| >= 1
    requires |sampled| == 4 * RowsFor(p) * p.resolution
    reads f.cells
  {
    var img := p.image.value;
    && f.cols == p.resolution && f.rows == RowsFor(p)
    && f.cells.Length0 == f.rows && f.cells.Length1 == f.cols
    && f.canvasWidth == (12 * f.cols) as real && f.canvasHeight == (20 * f.rows) as real
    && f.background == Background(p)
    && f.draw == DrawRect(img.width, img.height, f.cols, f.rows)
    && forall y, x :: 0 <= y < f.rows && 0 <= x < f.cols ==>
         f.cells[y, x] == MapCell(PixelAt(sampled, f.rows, f.cols, x, y), ToneFor(p))
  }

  /**
   * render: no image, no effect; a zero-row grid throws inside the `try`
   * and draws nothing; otherwise every grid position holds the cell its
   * sample maps to, or none.
   */
  method Render(p: Params, sampled: seq<byte>) returns (outcome: Outcome)
    requires |p.asciiChars| >= 1
    requires p.image.Some? ==> |sampled| == 4 * RowsFor(p) * p.resolution
    ensures p.image.None? <==> outcome == NoImage
    ensures p.image.Some? ==> (outcome == Failed <==> RowsFor(p) == 0)
    ensures outcome.Drawn? ==> fresh(outcome.frame.cells) && FrameOf(outcome.frame, p, sampled)
  {
    if p.image.None? {
      return NoImage;
    }
    var img := p.image.value;
    var targetRatio := TargetDimensions(p.aspectRatio, img.width, img.height).ratio;
    var cols := p.resolution;
    var rows := GridRows(cols, targetRatio);
    if rows == 0 {
      // getImageData(0, 0, cols, 0) raises IndexSizeError; the catch only logs it.
      return Failed;
    }
    var draw := DrawRect(img.width, img.height, cols, rows);
    var tone := ToneFor(p);
    var cells := new Option<Cell>[rows, cols]((_, _) => None);
    FillCells(cells, sampled, tone);
    var charWidth := FontSize * FontAspect;
    CanvasSize(cols, rows);
    outcome := Drawn(Frame(cols, rows, cols as real * charWidth * DensityScale,
                           rows as real * FontSize * DensityScale, Background(p), draw, cells));
  }

  /** The visible canvas is 12 pixels per column and 20 per row. */
  lemma CanvasSize(cols: nat, rows: nat)
    ensures cols as real * (FontSize * FontAspect) * DensityScale == (12 * cols) as real
    ensures rows as real * FontSize * DensityScale == (20 * rows) as real
  {
  }
}
