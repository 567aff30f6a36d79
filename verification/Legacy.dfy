/**
 * The older single-file version of the application (src/main.js): its own
 * state object, `updateSettings`, `getTargetDimensions` and a `render` with
 * no tint, a fixed black background and a draw-rectangle computation
 * nested inside a redundant test. Each piece is related to its
 * counterpart in the current renderer.
 */
module Legacy {
  import opened Wrappers
  import opened Arith
  import opened Colors
  import opened Geometry
  import opened Tone
  import opened Parameters
  import opened Renderer

  /** The element ids of the two checkboxes; each names the field it sets. */
  datatype ToggleId = ColorMode | Invert

  /** The element ids of the sliders wired to updateSettings. */
  datatype SliderId = Resolution | Contrast | Brightness | Scale | Rotation | OffsetX | OffsetY

  /** An `input` / `change` event: a checkbox with its `checked`, or a slider with its parsed value. */
  datatype SettingsEvent = Checkbox(toggle: ToggleId, checked: bool) | Slider(slider: SliderId, value: real)

  /** The legacy state object's fields as a value. */
  datatype Settings = Settings(
    image: Option<Image>, resolution: nat, contrast: real, brightness: real,
    colorMode: bool, invert: bool, aspectRatio: Aspect, scale: real,
    rotation: real, offsetX: real, offsetY: real, asciiChars: string)

  /** A value held by a field that an event can name. */
  datatype FieldValue = Flag(b: bool) | Number(r: real)

  datatype FieldId = Toggle(t: ToggleId) | Range(s: SliderId)

  /** `state[id]`: the field an element id names. */
  function Get(s: Settings, f: FieldId): FieldValue
  {
    match f
    case Toggle(ColorMode) => Flag(s.colorMode)
    case Toggle(Invert) => Flag(s.invert)
    case Range(Resolution) => Number(s.resolution as real)
    case Range(Contrast) => Number(s.contrast)
    case Range(Brightness) => Number(s.brightness)
    case Range(Scale) => Number(s.scale)
    case Range(Rotation) => Number(s.rotation)
    case Range(OffsetX) => Number(s.offsetX)
    case Range(OffsetY) => Number(s.offsetY)
  }

  function EventField(e: SettingsEvent): FieldId
  {
    match e
    case Checkbox(t, _) => Toggle(t)
    case Slider(s, _) => Range(s)
  }

  /** A value the resolution slider can report: a whole number of columns. */
  predicate WholeColumns(v: real)
  {
    v >= 0.0 && v.Floor as real == v
  }

  /** The global `state` of main.js. */
  class LegacyState {
    var image: Option<Image>
    var resolution: nat
    var contrast: real
    var brightness: real
    var colorMode: bool
    var invert: bool
    var aspectRatio: Aspect
    var scale: real
    var rotation: real
    var offsetX: real
    var offsetY: real
    var asciiChars: string

    function Current(): Settings
      reads this
    {
      Settings(image, resolution, contrast, brightness, colorMode, invert, aspectRatio,
               scale, rotation, offsetX, offsetY, asciiChars)
    }

    /** The initial state object. */
    constructor ()
      ensures Current() == Settings(None, 128, 1.0, 1.0, false, false, Auto, 1.0, 0.0, 0.0, 0.0, DefaultRamp)
    {
      image, resolution, contrast, brightness := None, 128, 1.0, 1.0;
      colorMode, invert, aspectRatio := false, false, Auto;
      scale, rotation, offsetX, offsetY := 1.0, 0.0, 0.0, 0.0;
      asciiChars := DefaultRamp;
    }

    /**
     * updateSettings: a checkbox sets the field its id names to `checked`,
     * a slider sets it to the parsed number, no event changes nothing; the
     * result says whether `render` is then called (only with an image).
     */
    method UpdateSettings(e: Option<SettingsEvent>) returns (rerender: bool)
      requires e.Some? && e.value.Slider? && e.value.slider == Resolution ==> WholeColumns(e.value.value)
      modifies this
      ensures rerender <==> image.Some?
      ensures e.None? ==> Current() == old(Current())
      ensures e.Some? && e.value.Checkbox? ==> Get(Current(), EventField(e.value)) == Flag(e.value.checked)
      ensures e.Some? && e.value.Slider? ==> Get(Current(), EventField(e.value)) == Number(e.value.value)
      ensures e.Some? ==> forall f :: f != EventField(e.value) ==> Get(Current(), f) == Get(old(Current()), f)
      ensures image == old(image) && aspectRatio == old(aspectRatio) && asciiChars == old(asciiChars)
    {
      if e.Some? {
        match e.value
        case Checkbox(id, checked) => {
          match id
          case ColorMode => colorMode := checked;
          case Invert => invert := checked;
        }
        case Slider(id, value) => {
          match id
          case Resolution => resolution := value.Floor;
          case Contrast => contrast := value;
          case Brightness => brightness := value;
          case Scale => scale := value;
          case Rotation => rotation := value;
          case OffsetX => offsetX := value;
          case OffsetY => offsetY := value;
        }
      }
      rerender := image.Some?;
    }

    /** The aspect-ratio `change` handler: stores the chosen ratio and nothing else. */
    method ChangeAspectRatio(a: Aspect) returns (rerender: bool)
      modifies this
      ensures Current() == old(Current()).(aspectRatio := a)
      ensures rerender <==> image.Some?
    {
      aspectRatio := a;
      rerender := image.Some?;
    }

    /** The legacy rows formula, the same as the current one. */
    function Rows(): (rows: nat)
      reads this
      requires image.Some?
      ensures aspectRatio.Auto? ==> rows == (3 * resolution * image.value.height) / (5 * image.value.width)
      ensures aspectRatio.Ratio? ==> rows == (3 * resolution * aspectRatio.h) / (5 * aspectRatio.w)
    {
      var w: pos := if aspectRatio.Auto? then image.value.width else aspectRatio.w;
      var h: pos := if aspectRatio.Auto? then image.value.height else aspectRatio.h;
      GridRowsClosedForm(resolution, w, h);
      GridRows(resolution, TargetDimensions(aspectRatio, image.value.width, image.value.height).ratio)
    }

    /**
     * render of main.js: nothing without an image; a zero-row grid makes
     * `getImageData` throw (uncaught here); otherwise every position holds
     * the legacy cell of its sample, on a black background.
     */
    method Render(sampled: seq<byte>) returns (outcome: Outcome)
      requires |asciiChars| >= 1
      requires image.Some? ==> |sampled| == 4 * Rows() * resolution
      ensures image.None? <==> outcome == NoImage
      ensures image.Some? ==> (outcome == Failed <==> Rows() == 0)
      ensures outcome.Drawn? ==>
                var f := outcome.frame;
                && fresh(f.cells)
                && f.cols == resolution && f.rows == Rows()
                && f.cells.Length0 == f.rows && f.cells.Length1 == f.cols
                && f.canvasWidth == (12 * f.cols) as real && f.canvasHeight == (20 * f.rows) as real
                && f.background == "#000000"
                && f.draw == DrawRect(image.value.width, image.value.height, f.cols, f.rows)
                && forall y, x :: 0 <= y < f.rows && 0 <= x < f.cols ==>
                     f.cells[y, x] == LegacyMapCell(PixelAt(sampled, f.rows, f.cols, x, y), asciiChars, invert, colorMode)
    {
      if image.None? {
        return NoImage;
      }
      var img := image.value;
      var targetRatio := TargetDimensions(aspectRatio, img.width, img.height).ratio;
      var cols := resolution;
      var rows := GridRows(cols, targetRatio);
      var draw := LegacyDrawRect(img.width, img.height, targetRatio, cols, rows);
      if rows == 0 {
        return Failed;
      }
      var tone := ToneSettings(asciiChars, invert, colorMode, false, Black, Black);
      var cells := new Option<Cell>[rows, cols]((_, _) => None);
      FillCells(cells, sampled, tone);
      CanvasSize(cols, rows);
      forall y, x | 0 <= y < rows && 0 <= x < cols
        ensures cells[y, x] == LegacyMapCell(PixelAt(sampled, rows, cols, x, y), asciiChars, invert, colorMode)
      {
      }
      outcome := Drawn(Frame(cols, rows, cols as real * (FontSize * FontAspect) * DensityScale,
                             rows as real * FontSize * DensityScale, "#000000", draw, cells));
    }
  }

  /**
   * The draw rectangle as main.js writes it: an outer `imgRatio >
   * targetRatio` test whose two arms repeat the same inner computation, and
   * a provisional height that is always overwritten. It is the current
   * renderer's rectangle whatever the target ratio.
   */
  method LegacyDrawRect(imgWidth: pos, imgHeight: pos, targetRatio: real, cols: nat, rows: nat) returns (r: Rect)
    ensures r == DrawRect(imgWidth, imgHeight, cols, rows)
  {
    var imgRatio := imgWidth as real / imgHeight as real;
    var drawWidth, drawHeight;
    if imgRatio > targetRatio {
      drawWidth := cols as real;
      drawHeight := cols as real / imgRatio * FontAspect;
      var gridImgRatio := imgRatio / 0.6;
      if rows > 0 && gridImgRatio > cols as real / rows as real {
        drawWidth := cols as real;
        drawHeight := cols as real / gridImgRatio;
      } else {
        drawHeight := rows as real;
        drawWidth := rows as real * gridImgRatio;
      }
    } else {
      var gridImgRatio := imgRatio / 0.6;
      if rows > 0 && gridImgRatio > cols as real / rows as real {
        drawWidth := cols as real;
        drawHeight := cols as real / gridImgRatio;
      } else {
        drawHeight := rows as real;
        drawWidth := rows as real * gridImgRatio;
      }
    }
    r := Rect(drawWidth, drawHeight);
  }

  /**
   * The legacy cell: the same alpha cut-off and glyph index, and the
   * sampled colour or white; it is the current cell with tint switched off.
   */
  function LegacyMapCell(px: Pixel, ramp: string, invert: bool, colorMode: bool): (c: Option<Cell>)
    requires |ramp| >= 1
    ensures c == MapCell(px, ToneSettings(ramp, invert, colorMode, false, Black, Black))
  {
    if px.a < 128 then None
    else
      var brightness := Tone.Brightness(px);
      var charIndex := GlyphIndex(brightness, |ramp|, invert);
      var paint := if colorMode then Fill(Rgb(px.r, px.g, px.b)) else White;
      Some(Cell(ramp[charIndex], paint))
  }

  /**
   * Legacy getTargetDimensions: `'auto'` is the image's own size; an
   * explicit `w:h` keeps the width and makes the height `width · h / w`.
   */
  lemma LegacyTargetDimensions(aspect: Aspect, imgWidth: pos, imgHeight: pos)
    ensures aspect.Auto? ==>
              TargetDimensions(aspect, imgWidth, imgHeight) == Dimensions(imgWidth as real, imgHeight as real, imgWidth as real / imgHeight as real)
    ensures aspect.Ratio? ==>
              var d := TargetDimensions(aspect, imgWidth, imgHeight);
              d.width == imgWidth as real && d.height == (imgWidth * aspect.h) as real / aspect.w as real
  {
    if aspect.Ratio? {
      var w, h := aspect.w as real, aspect.h as real;
      assert imgWidth as real / (w / h) == imgWidth as real * h / w;
    }
  }
}
