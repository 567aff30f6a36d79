# ASCII-Art Generator: rendering and history core

A Dafny model of the core of a browser ASCII-art generator. The generator
samples an image into a grid of `cols × rows` RGBA pixels and turns each
opaque sample into one glyph of a brightness ramp. The glyph is painted
white, in the sample's own colour, or in a shadow-to-highlight tint. The
modelled parts are:

- `getTargetDimensions`, the grid's row count and the "contain" rectangle
  the image is drawn into (`Geometry`).
- The per-sample tone mapping: the alpha cut-off, brightness, the glyph
  index with its inversion and clamp, and the colour / tint choice (`Tone`).
- `hexToRgb`, the parser for the tint colours (`Colors`).
- `render` with the canvas operations factored out (`Renderer`). The caller
  supplies the RGBA buffer that `getImageData` returns. The render fills a
  grid of optional cells with a nested loop over rows and columns. A grid of
  zero rows makes `getImageData` throw; the `try` catches it and nothing is
  drawn.
- The parameter history (`History`): the live state object, `cloneState`
  (value semantics), `initHistory`, `commitState` with its 50-entry cap,
  `undo`, `redo`, `resetApp`, the field copy of `applyState`, and the
  change summary `getChanges`. The history is specified on values (`Stacks`
  with `CommitStep`, `UndoStep`, `RedoStep`). The `History` class updates
  its fields in place and is proved to follow that specification.
  The fourteen `if`/`push` lines of `getChanges` run in the source's order,
  written as three consecutive methods (`SamplingChanges`, `ColourChanges`,
  `FramingChanges`) so that each stretch is proved on its own.
- The older single-file version (`Legacy`): its state object,
  `updateSettings`, the aspect-ratio handler, its `getTargetDimensions`, and
  its `render`. That render has no tint, a fixed black background and no
  `try`. Each piece is proved equal to its counterpart in the current
  renderer; the draw rectangle is modelled as written, with its redundant
  outer test and its overwritten provisional height.

Numbers are exact: the JavaScript doubles are modelled as Dafny `real`, and
`Math.floor` as `.Floor`. `Math.round` becomes `RoundHalfUp`, which is
`floor(x + 0.5)`. The row count and the glyph index are then proved equal to
integer closed forms.

Two behaviours of the code are easy to misread:

- The contain rectangle fills at least one grid dimension, and both when
  the image and grid ratios agree (`Geometry.DrawRect`).
- Redo applies the last committed snapshot, so live edits not committed
  before an undo are lost (`History.UndoThenRedoRestores`).

## Model

| member | source | states |
|---|---|---|
| Colors.HexToRgb | src/utils.js:6-13 | a 6-digit hex colour, with or without one leading `#`, in either case, gives its three channels (`16·hi + lo` each); every other string gives black |
| Colors.PairValue | src/utils.js:9-11 | a two-digit group read base 16 splits back into its digits: the value div 16 is the high digit and mod 16 the low one |
| Colors.HexRoundTrip | src/utils.js:6-13 | every colour written as `#rrggbb` is accepted and parsed back to itself |
| Colors.ChannelsInRange | src/utils.js:8-12 | channels are always 0..255, and a non-black result implies the input matched the pattern |
| Colors.HashIsOptional | src/utils.js:7 | a leading `#` does not change the result |
| Colors.RejectedForms | src/utils.js:7-12 | the short form `#fff`, seven digits, a non-hex digit, a doubled `#` and the empty string all give black |
| Colors.WhiteAndBlack | src/utils.js:7-12 | `#ffffff`, `ffffff` and `#FFFFFF` give white; `#000000` gives black |
| Geometry.TargetDimensions | src/renderer.js:3-12 | `auto` gives the image's own size and ratio; `w:h` gives ratio `w/h` and keeps the image width, with `width/height == ratio` in both cases |
| Geometry.ExplicitRatioIgnoresImage | src/renderer.js:7-8 | an explicit ratio does not depend on the image size |
| Geometry.GridRows | src/renderer.js:21-23 | the row count is never negative |
| Geometry.GridRowsClosedForm | src/renderer.js:21-23 | for ratio `w/h`, `floor(cols / ratio · 0.6)` equals `(3·cols·h) div (5·w)` |
| Geometry.RowsZeroIff | src/renderer.js:21-23 | the grid has zero rows exactly when `3·cols·h < 5·w` |
| Geometry.HundredColumnsOfFullHd | src/renderer.js:21-23 | 100 columns of a 1920×1080 image in auto mode give 33 rows |
| Geometry.DrawRect | src/renderer.js:40-49 | the rectangle keeps the image's aspect in grid units; with rows it fits inside the grid, touches it on at least one side, and is non-empty when the grid is |
| Geometry.SquareImageInSquareGrid | src/renderer.js:40-49 | a square image in a 100×100 grid is drawn 100 wide and 60 high |
| Arith.RoundHalfUp | src/renderer.js:107-109 | `Math.round` gives the integer `r` with `r − 0.5 ≤ x < r + 0.5`: the nearest integer, halves rounded up |
| Renderer.PixelAt | src/renderer.js:84-88 | the sample at (x, y) is the four bytes at row-major offset `4·(y·cols + x)`, all inside the buffer |
| Renderer.RowsFor | src/renderer.js:18-23 | the state's row count is `(3·resolution·imgHeight) div (5·imgWidth)` in auto mode and `(3·resolution·h) div (5·w)` for `w:h` |
| Arith.CellIndexInBounds | src/renderer.js:84-88 | the four bytes read for any grid position lie inside the `4·rows·cols` buffer |
| Tone.Brightness | src/renderer.js:92 | the average of three channels lies in 0..255 |
| Tone.Clamp | src/renderer.js:100 | the clamp stays within `0..len−1` and leaves in-range indices alone |
| Tone.ClampMonotone | src/renderer.js:100 | the clamp preserves order |
| Tone.GlyphIndex | src/renderer.js:94-100 | the glyph index is always a valid index of the ramp |
| Tone.GlyphIndexClosedForm | src/renderer.js:94-100 | for a channel sum `s`, the index is `s·(len−1) div 765`, or `(765−s)·(len−1) div 765` when inverted |
| Tone.GlyphIndexMonotone | src/renderer.js:94-100 | brighter samples never get a sparser glyph, or never a denser one when inverted |
| Tone.GlyphIndexInvertMirror | src/renderer.js:95-98 | inverting is mapping brightness `b` as `255 − b` |
| Tone.GlyphIndexExtremes | src/renderer.js:94-101 | white gets the last glyph and black the first; inverted, the reverse |
| Tone.TintChannel | src/renderer.js:106-109 | a rounded interpolated channel lies between the shadow and highlight channels |
| Tone.InterpolationBetween | src/renderer.js:107-109 | `s + (h − s)·t` with `0 ≤ t ≤ 1` lies between `s` and `h` |
| Tone.Tint | src/renderer.js:104-110 | brightness 0 gives the shadow colour, 255 the highlight colour |
| Tone.MapCell | src/renderer.js:84-116 | a sample with alpha < 128 is skipped; otherwise its glyph is the ramp at the glyph index, painted white, in the sample's colour, or in the tint, according to colour mode and tint |
| Tone.PaintIgnoresInvert | src/renderer.js:94-116 | inversion changes the glyph only, never the paint |
| Tone.TintWithinRange | src/renderer.js:104-110 | each tinted channel lies between the shadow and highlight channels |
| Tone.MidGreyTint | src/renderer.js:106-109 | a black-to-white tint maps brightness 128 to grey 128 (round half up) |
| Tone.DefaultRampExamples | src/renderer.js:90-101 | with the default ramp, white maps to `@`, inverted black maps to `@`, and alpha 50 is skipped |
| Renderer.ToneFor | src/renderer.js:73-80 | the tint colours come from parsing the shadow and highlight colours when colour mode and tint are both on |
| Renderer.Background | src/renderer.js:67-68 | the background is the chosen colour, or `#000000` when it is empty |
| Renderer.FillCells | src/renderer.js:82-120 | after the nested loop every grid position holds its sample's cell, and skipped positions keep what they held |
| Renderer.Render | src/renderer.js:14-124 | no image: nothing; zero rows: the caught failure; otherwise a frame of `resolution × rows` cells, each the mapped cell of its sample, with the background, a canvas of `12·cols × 20·rows` pixels and the draw rectangle above |
| Renderer.CanvasSize | src/renderer.js:57-63 | the visible canvas is 12 pixels per column and 20 per row |
| History.LiveState.constructor | src/state.js:6-35 | the live state starts at the defaults, with zoom 1, no pan and the cursor tool |
| History.LiveState.Snapshot | src/state.js:43-62 | cloneState: the copy agrees with the live parameters in all sixteen fields: no field getChanges compares differs, the glyph ramp is the same, and the live image is shared |
| History.LiveState.ApplyState | src/state.js:127-131 | the sixteen parameters become the snapshot's, and the viewport fields are untouched |
| History.CommitStep | src/state.js:68-73 | the previous snapshot is pushed, the oldest dropped beyond 50, redo cleared, and the current parameters become the last snapshot; the bound is kept |
| History.UndoStep | src/state.js:75-83 | a no-op on an empty undo stack; otherwise the top snapshot becomes current and the old current goes to redo, with the total size kept |
| History.RedoStep | src/state.js:92-100 | the mirror image of undo |
| History.UndoThenRedo | src/state.js:75-107 | redo after an effective undo restores the history exactly |
| History.RedoThenUndo | src/state.js:75-107 | undo after an effective redo restores the history exactly |
| History.RedoAfterCommit | src/state.js:68-73 | after a commit, redo does nothing |
| History.RunStaysBounded | src/state.js:68-107 | `|undo| + |redo| ≤ 50` survives any sequence of commits, undos and redos |
| History.CommitAllKeepsNewest | src/state.js:68-73 | after a run of commits the undo stack is the newest 50 snapshots pushed, in order |
| History.OldestForgotten | src/state.js:72 | after more than 50 commits only the 50 latest earlier snapshots can be undone to |
| History.ChangesUpTo | src/state.js:133-150 | the first `n` comparisons report at most `n` labels |
| History.LabelsDistinct | src/state.js:135-148 | the fourteen labels are pairwise distinct |
| History.ChangesUpToMembers | src/state.js:133-150 | a label is reported exactly when its comparison finds a difference |
| History.ChangesInTableOrder | src/state.js:133-150 | reported labels come from the table, in table order, each once |
| History.ChangesEmptyIff | src/state.js:133-150 | nothing is reported exactly when every field but the glyph ramp is equal |
| History.GlyphRampNeverReported | src/state.js:133-150 | a change of the glyph ramp alone reports nothing |
| History.OffsetsMergeIntoPosition | src/state.js:147 | moving both offsets reports the single label "Position" |
| History.GetChanges | src/state.js:133-150 | the fourteen comparisons produce exactly the specified summary |
| History.SamplingChanges | src/state.js:135-137 | the resolution, contrast and brightness comparisons extend the summary exactly as the table's first three entries |
| History.ColourChanges | src/state.js:138-143 | the colour-mode, tint, highlight, shadow, background and invert comparisons extend it as entries four to nine |
| History.FramingChanges | src/state.js:144-148 | the aspect, scale, rotation, position and image comparisons complete it as the last five entries |
| History.History.InitHistory | src/state.js:64-66 | the stacks start empty and the current parameters become the first snapshot |
| History.History.CommitState | src/state.js:68-73 | the object's stacks follow `CommitStep` and stay within 50 |
| History.History.Undo | src/state.js:75-90 | the stacks follow `UndoStep`; with nothing to undo, nothing changes and nothing is reported; otherwise the live parameters become the popped snapshot and the differing labels are returned; the viewport is untouched |
| History.History.Redo | src/state.js:92-107 | the mirror image of `Undo` |
| History.History.ResetApp | src/state.js:109-125 | the defaults with no image, zoom 1 and no pan, empty stacks, and the defaults as the last snapshot |
| History.UndoThenRedoRestores | src/state.js:75-107 | undo then redo restores the history; the live parameters come back whenever they had been committed |
| History.RedoThenUndoRestores | src/state.js:75-107 | redo then undo restores the history; the live parameters come back whenever they had been committed |
| Legacy.LegacyState.constructor | src/main.js:3-16 | the legacy state starts at its twelve defaults |
| Legacy.LegacyState.UpdateSettings | src/main.js:107-123 | the field the element id names takes the checkbox state or the slider value, every other field is unchanged, no event changes nothing, and a re-render follows exactly when there is an image |
| Legacy.LegacyState.ChangeAspectRatio | src/main.js:56-59 | the aspect-ratio handler stores the new ratio and changes nothing else; the `render()` it calls draws exactly when there is an image |
| Legacy.LegacyState.Rows | src/main.js:146-154 | the legacy row count is the same closed form as the current one: `(3·resolution·imgHeight) div (5·imgWidth)` in auto mode, `(3·resolution·h) div (5·w)` for `w:h` |
| Legacy.LegacyState.Render | src/main.js:143-341 | no image: nothing; zero rows: failure; otherwise a `12·cols × 20·rows` frame on black whose cells are the legacy cells of their samples |
| Legacy.LegacyDrawRect | src/main.js:189-268 | the as-written nested computation gives the current renderer's rectangle for every target ratio |
| Legacy.LegacyMapCell | src/main.js:295-336 | the legacy cell is the current cell with tint switched off |
| Legacy.LegacyTargetDimensions | src/main.js:125-141 | `auto` gives the image's size; `w:h` keeps the width and makes the height `width·h/w` |

## Left out

- Canvas drawing is not modelled: the background `fillRect`, the `contrast()`/`brightness()` filter, the offset / rotation / scale transforms, `drawImage`, font setup and `fillText` positions. The sampled RGBA buffer is a parameter of `Render`.
- Floating point is not modelled: doubles are exact rationals, so a `Math.floor` that rounding error tips below an integer is not captured, and this is not rare. At 35 columns and ratio 3:2, `35 / 1.5 * 0.6` is 13.999999999999998 in doubles, so the program draws 13 rows where `Geometry.GridRowsClosedForm` gives 14. For channel sum 425 with the ten-glyph default ramp, the double expression floors 4.999999999999999 to index 4 where `Tone.GlyphIndexClosedForm` gives 5.
- The aspect ratio is not parsed: it is `Auto` or a pair of positive integers, as offered by the ratio selector. A malformed `w:h` string (giving `NaN`) is not modelled.
- Renderer.Render: requires a non-empty glyph ramp. No core code changes `asciiChars`, and with an empty ramp the source would draw the text `undefined`.
- Legacy.LegacyState.Render: requires a non-empty glyph ramp. The constructor sets the default ramp, and neither `UpdateSettings` nor `ChangeAspectRatio` changes it, so every call in the legacy program meets this.
- The `console.error` in the renderer's `catch` is not modelled; it becomes the outcome `Failed`. The legacy render has no `try`, and there `Failed` stands for the exception propagating.
- History.History.Undo: the toast text (`"Undo: a, b"` or `"Undo"`) is not built; the label list it is joined from is returned. The same holds for `Redo` and the `"Reset"` toast.
- `updateUIValues` and `render`, called from `applyState`, and `updateViewport`, called from `resetApp`, are not modelled: they belong to the UI and viewport code.
- `lastCommittedState` is `null` only before `initHistory` runs; the model starts with `initHistory` done (`History.History.InitHistory`).
- `cloneState` is value semantics: `Params` is an immutable value, so snapshots cannot alias the live state. The image is a reference that snapshots share; it is modelled as an `Image` value with an identity, compared by that identity as `!==` does.
- LiveState keeps its sixteen parameter fields together as one `Params` value, next to the eight viewport fields, instead of sixteen separate fields. Every operation reads or writes the parameters as a whole, as `cloneState` and `Object.assign` do.
- Legacy.LegacyState.UpdateSettings: requires the resolution slider's value to be a whole, non-negative number, as a step-1 range input reports. A fractional column count is not modelled.
- The UI panels, viewport panning and zooming, the animated backdrop, image loading and export (`ui.js`, `viewport.js`, `backdrop.js`, the file handlers of `main.js`) are outside this model.
