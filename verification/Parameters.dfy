/**
 * The sixteen editable parameters of the application state (src/state.js)
 * and their defaults. Floating-point sliders are `real`; colours are the
 * `#rrggbb` strings the colour inputs hold.
 */
module Parameters {
  import opened Wrappers
  import opened Arith
  import opened Geometry
  import Tone

  /** A decoded image element; `id` stands for its object identity. */
  datatype Image = Image(id: nat, width: pos, height: pos)

  datatype Params = Params(
    image: Option<Image>,
    resolution: nat,
    contrast: real,
    brightness: real,
    colorMode: bool,
    customTint: bool,
    highlightColor: string,
    shadowColor: string,
    backgroundColor: string,
    invert: bool,
    aspectRatio: Aspect,
    scale: real,
    rotation: real,
    offsetX: real,
    offsetY: real,
    asciiChars: string)

  /** The parameter part of `defaultState`. */
  const Defaults := Params(
    None, 128, 1.0, 1.0, false, false, "#ffffff", "#000000", "#000000",
    false, Auto, 1.0, 0.0, 0.0, 0.0, Tone.DefaultRamp)
}
