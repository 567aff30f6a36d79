/**
 * The per-cell tone mapping inside the pixel loop of `render`
 * (src/renderer.js): alpha cut-off, unweighted mean brightness, glyph index
 * with optional inversion and clamping, and the fill colour (white, the
 * sampled colour, or a shadow-to-highlight tint).
 */
module Tone {
  import opened Wrappers
  import opened Arith
  import opened Colors

  /** The default glyph ramp, sparse to dense. */
  const DefaultRamp: string := " .:-=+*#%@"

  /** One sample of the RGBA buffer. */
  datatype Pixel = Pixel(r: byte, g: byte, b: byte, a: byte)

  /** The fill style of a glyph: `'#ffffff'` or `rgb(r,g,b)`. */
  datatype Paint = White | Fill(color: Rgb)

  datatype Cell = Cell(glyph: char, paint: Paint)

  /**
   * What the loop reads from the state, with the tint colours already parsed
   * (they are only parsed, and only used, when colour mode and tint are both on).
   */
  datatype ToneSettings = ToneSettings(
    ramp: string, invert: bool, colorMode: bool, customTint: bool,
    shadow: Rgb, highlight: Rgb)

  /** `(r + g + b) / 3`. */
  function Brightness(px: Pixel): (v: real)
    ensures 0.0 <= v <= 255.0
  {
    (px.r + px.g + px.b) as real / 3.0
  }

  function Clamp(i: int, hi: nat): (c: nat)
    ensures c <= hi
    ensures 0 <= i <= hi ==> c == i
  {
    if i < 0 then 0 else if i > hi then hi else i
  }

  /**
   * The glyph index: `floor(brightness / 255 · (len − 1))`, or of
   * `(255 − brightness)` when inverted, then clamped to `[0, len − 1]`.
   */
  function GlyphIndex(brightness: real, len: pos, invert: bool): (i: nat)
    ensures i < len
  {
    Clamp(UnclampedIndex(brightness, len, invert), len - 1)
  }

  function UnclampedIndex(brightness: real, len: pos, invert: bool): int
  {
    if invert then (((255.0 - brightness) / 255.0) * (len - 1) as real).Floor
    else ((brightness / 255.0) * (len - 1) as real).Floor
  }

  lemma ClampMonotone(i: int, j: int, hi: nat)
    requires i <= j
    ensures Clamp(i, hi) <= Clamp(j, hi)
  {
  }

  /**
   * For a sampled pixel (channel sum `s`) the clamp never fires and the
   * index is the integer quotient `s·(len−1) / 765`, or `(765−s)·(len−1) / 765`
   * when inverted.
   */
  lemma GlyphIndexClosedForm(s: int, len: pos)
    requires 0 <= s <= 765
    ensures GlyphIndex(s as real / 3.0, len, false) == (s * (len - 1)) / 765
    ensures GlyphIndex(s as real / 3.0, len, true) == ((765 - s) * (len - 1)) / 765
  {
    var l := (len - 1) as real;
    assert (s as real / 3.0 / 255.0) * l == (s * (len - 1)) as real / 765 as real;
    assert ((255.0 - s as real / 3.0) / 255.0) * l == ((765 - s) * (len - 1)) as real / 765 as real;
    FloorOfQuotient(s * (len - 1), 765);
    FloorOfQuotient((765 - s) * (len - 1), 765);
    DivBelowOne(s, len - 1);
    DivBelowOne(765 - s, len - 1);
  }

  lemma DivBelowOne(s: nat, k: nat)
    requires s <= 765
    ensures 0 <= (s * k) / 765 <= k
  {
    assert s * k <= 765 * k;
  }

  /** Without inversion the glyph gets denser as the brightness grows; with it, sparser. */
  lemma GlyphIndexMonotone(b1: real, b2: real, len: pos)
    requires b1 <= b2
    ensures GlyphIndex(b1, len, false) <= GlyphIndex(b2, len, false)
    ensures GlyphIndex(b1, len, true) >= GlyphIndex(b2, len, true)
  {
    var l := (len - 1) as real;
    ScaleMonotone(b1 / 255.0, b2 / 255.0, l);
    FloorMonotone((b1 / 255.0) * l, (b2 / 255.0) * l);
    ClampMonotone(UnclampedIndex(b1, len, false), UnclampedIndex(b2, len, false), len - 1);
    ScaleMonotone((255.0 - b2) / 255.0, (255.0 - b1) / 255.0, l);
    FloorMonotone(((255.0 - b2) / 255.0) * l, ((255.0 - b1) / 255.0) * l);
    ClampMonotone(UnclampedIndex(b2, len, true), UnclampedIndex(b1, len, true), len - 1);
  }

  lemma ScaleMonotone(x: real, y: real, k: real)
    requires x <= y && k >= 0.0
    ensures x * k <= y * k
  {
  }

  /** Inverting is reading the ramp at the complementary brightness `255 − b`. */
  lemma GlyphIndexInvertMirror(b: real, len: pos)
    ensures GlyphIndex(b, len, true) == GlyphIndex(255.0 - b, len, false)
  {
  }

  /** Pure white is the densest glyph, as is pure black inverted; black (white inverted) is the sparsest. */
  lemma GlyphIndexExtremes(len: pos)
    ensures GlyphIndex(255.0, len, false) == len - 1 && GlyphIndex(0.0, len, true) == len - 1
    ensures GlyphIndex(0.0, len, false) == 0 && GlyphIndex(255.0, len, true) == 0
  {
    GlyphIndexClosedForm(765, len);
    GlyphIndexClosedForm(0, len);
  }

  /** `Math.round(shadow + (high − shadow) · brightness / 255)`: between the two channel values. */
  function TintChannel(shadow: byte, high: byte, brightness: real): (c: byte)
    requires 0.0 <= brightness <= 255.0
    ensures (if shadow <= high then shadow else high) <= c <= (if shadow <= high then high else shadow)
  {
    var x := shadow as real + (high - shadow) as real * (brightness / 255.0);
    var lo, hi := if shadow <= high then shadow else high, if shadow <= high then high else shadow;
    InterpolationBetween(shadow, high, brightness / 255.0);
    RoundBetween(x, lo, hi);
    RoundHalfUp(x)
  }

  lemma InterpolationBetween(s: int, h: int, t: real)
    requires 0.0 <= t <= 1.0
    ensures var x := s as real + (h - s) as real * t;
            (s <= h ==> s as real <= x <= h as real) && (h < s ==> h as real <= x <= s as real)
  {
    var d := (h - s) as real;
    if s <= h {
      assert 0.0 <= d * t <= d * 1.0 by { ScaleMonotone(t, 1.0, d); ScaleMonotone(0.0, t, d); }
    } else {
      assert -d * t <= -d * 1.0 by { ScaleMonotone(t, 1.0, -d); }
      assert 0.0 <= -d * t by { ScaleMonotone(0.0, t, -d); }
    }
  }

  /** The tint of a brightness, channel by channel. */
  function Tint(shadow: Rgb, high: Rgb, brightness: real): (c: Rgb)
    requires 0.0 <= brightness <= 255.0
    ensures brightness == 0.0 ==> c == shadow
    ensures brightness == 255.0 ==> c == high
  {
    RoundOfInteger(shadow.r); RoundOfInteger(shadow.g); RoundOfInteger(shadow.b);
    RoundOfInteger(high.r); RoundOfInteger(high.g); RoundOfInteger(high.b);
    Rgb(TintChannel(shadow.r, high.r, brightness),
        TintChannel(shadow.g, high.g, brightness),
        TintChannel(shadow.b, high.b, brightness))
  }

  /**
   * One cell: nothing when alpha is below 128, otherwise the glyph at
   * GlyphIndex and a paint chosen by colour mode and tint.
   */
  function MapCell(px: Pixel, t: ToneSettings): (c: Option<Cell>)
    requires |t.ramp| >= 1
    ensures c.None? <==> px.a < 128
    ensures c.Some? ==> c.value.glyph == t.ramp[GlyphIndex(Brightness(px), |t.ramp|, t.invert)]
    ensures c.Some? && !t.colorMode ==> c.value.paint == White
    ensures c.Some? && t.colorMode && !t.customTint ==> c.value.paint == Fill(Rgb(px.r, px.g, px.b))
    ensures c.Some? && t.colorMode && t.customTint ==> c.value.paint == Fill(Tint(t.shadow, t.highlight, Brightness(px)))
  {
    if px.a < 128 then None
    else
      var brightness := Brightness(px);
      var glyph := t.ramp[GlyphIndex(brightness, |t.ramp|, t.invert)];
      var paint :=
        if t.colorMode then
          if t.customTint then Fill(Tint(t.shadow, t.highlight, brightness))
          else Fill(Rgb(px.r, px.g, px.b))
        else White;
      Some(Cell(glyph, paint))
  }

  /** The paint never depends on inversion: tint follows brightness, not the glyph. */
  lemma PaintIgnoresInvert(px: Pixel, t: ToneSettings)
    requires |t.ramp| >= 1 && px.a >= 128
    ensures MapCell(px, t).value.paint == MapCell(px, t.(invert := !t.invert)).value.paint
  {
  }

  /** A tinted channel lies between the shadow and highlight channel values. */
  lemma TintWithinRange(px: Pixel, t: ToneSettings)
    requires |t.ramp| >= 1 && px.a >= 128 && t.colorMode && t.customTint
    ensures var c := MapCell(px, t).value.paint.color;
            && Between(c.r, t.shadow.r, t.highlight.r)
            && Between(c.g, t.shadow.g, t.highlight.g)
            && Between(c.b, t.shadow.b, t.highlight.b)
  {
  }

  predicate Between(x: int, a: int, b: int)
  {
    (a <= x <= b) || (b <= x <= a)
  }

  /** Black-to-white tint at grey 128 gives (128, 128, 128). */
  lemma MidGreyTint()
    ensures Tint(Black, Rgb(255, 255, 255), 128.0) == Rgb(128, 128, 128)
  {
    assert 0.0 + 255.0 * (128.0 / 255.0) + 0.5 == 128.5;
  }

  /** With the default ramp, white gives '@', inverted black gives '@', and a transparent sample gives nothing. */
  lemma DefaultRampExamples(t: ToneSettings)
    requires t.ramp == DefaultRamp
    ensures MapCell(Pixel(255, 255, 255, 255), t.(invert := false)).value.glyph == '@'
    ensures MapCell(Pixel(0, 0, 0, 255), t.(invert := true)).value.glyph == '@'
    ensures forall r: byte, g: byte, b: byte :: MapCell(Pixel(r, g, b, 50), t).None?
  {
    GlyphIndexExtremes(10);
  }
}
