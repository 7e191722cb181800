# Cohen–Sutherland clipping visualiser: a verified Dafny model

The repository is a single-page tool that draws a coordinate grid on a canvas.
The user enters line segments and a rectangular clip window, and the page clips
each segment against the window with the Cohen–Sutherland algorithm. The
canvas can be panned by dragging, zoomed with the wheel at the pointer, and
reset. All logic is in `static/js/script.js`. This model covers its four parts:

- **Clipping** (`clipping.dfy`, module `Clipping`).
  - `ComputeCode` is the 4-bit region code (LEFT = 1, RIGHT = 2, BOTTOM = 4,
    TOP = 8).
  - `Clip` is the clipping loop as a recursive specification, one round per
    call.
  - `CohenSutherland` is the `while (true)` loop itself. It is imperative,
    works on the four coordinates and the two codes, and is proved to compute
    `Clip`.
  - Coordinates are exact reals.
- **Clipping properties** (`clip_properties.dfy`, module `ClipProperties`).
  These are the guarantees of the loop:
  - trivial accept and trivial reject;
  - accepted endpoints lie in the window;
  - re-clipping is idempotent;
  - an accepted segment is a sub-segment of the input.
  - Exactness, for every window: a rejected segment has no point in the
    window, and an accepted segment is exactly the part of the input inside it.
- **Viewport** (`viewport.dfy`, module `ViewTransform`). The globals `scale`,
  `offsetX`, `offsetY` and the drag state become the class `Viewport`. Its
  methods model the mouse handlers and the reset.
  - `MapToCanvas` is the world-to-canvas map.
  - `LabelStep` is the grid-label stride.
  - Pure lemmas cover the clamp, the zoom formula, its drift, the inverse map
    and the stride.
- **Scene** (`scene.dfy`, module `SceneState`, and `app.dfy`, module `App`).
  - The segment list is the class `Scene`, holding a sequence of `SegmentEntry`
    objects that are compared by identity.
  - Rows are added and removed by identity, their coordinates can be edited,
    and every row is clipped.
  - The random clip window is computed from its four draws.
  - `App.ResetCanvas` is the reset button: it empties the list and resets the
    viewport.

Termination of the clipping loop holds for every window, ordered or not. The
measure is 0 once `code1 & code2 != 0`, and otherwise `1 + popcount(code1 | code2)`.

- Along an ordered axis, a round removes the clipped bit from
  `code1 | code2` and adds none.
- Along an inverted axis (for example `xmin > xmax`), every point is beyond
  exactly one of its two boundaries. So the moved endpoint lands beyond the
  boundary that the other endpoint is beyond, and the next round rejects.
- The loop's ghost round counter equals `Rounds`, the number of clipping
  rounds, which is at most four.

Points where the code's behaviour is easy to misread:

- **Zoom anchoring.** The wheel handler keeps `(mouseX - offsetX) / scale`
  fixed, but the world-to-canvas map adds half the canvas width. So the world
  point under the pointer does not stay there: it moves by
  `(width / 2) * (1 - zoomFactor)` (`ZoomDrift`). It stays put only when the
  scale does not change (`ZoomAnchorsOnlyWhenUnchanged`).
- **Random window.** The lower bound is drawn from -10 to 10, and the upper
  bound from the lower bound up to 10, so the window is ordered by
  construction.
- **Scale bounds.** The scale is kept in [5, 50] by the wheel, the reset and
  start-up. The slider handler (`updateScale`) does not clamp; it is left out.

## Model

| member | source | states |
|---|---|---|
| Clipping.ComputeCode | static/js/script.js:182-189 | Each bit is set exactly when the point is beyond that boundary (RIGHT only when not LEFT, TOP only when not BOTTOM). LEFT and RIGHT are never both set, nor BOTTOM and TOP. The code is 0 exactly when the point is in the closed window. |
| Clipping.ChosenCode | static/js/script.js:203 | When neither trivial test decides, the code of the endpoint to move (`code1 ? code1 : code2`) is nonzero. |
| Clipping.Boundary | static/js/script.js:206-218 | The boundary chosen in the order TOP, BOTTOM, RIGHT, LEFT is one of the four and is set in the code. RIGHT or LEFT is chosen only when neither TOP nor BOTTOM is set. |
| Clipping.SafeDivision | static/js/script.js:203-217 | Whenever the loop divides, its denominator (`y2 - y1` for TOP/BOTTOM, `x2 - x1` for RIGHT/LEFT) is nonzero. |
| Clipping.IntersectionOnLine | static/js/script.js:206-217 | The intersection the loop computes is the point of the input's line at parameter (boundary - c1) / (c2 - c1). |
| Clipping.StepParamInUnit | static/js/script.js:206-217 | When the clipped axis is ordered, that parameter lies in [0, 1]. |
| Clipping.StepOnSegment | static/js/script.js:220-228 | When the clipped axis is ordered, a round replaces the moved endpoint by a point of the segment, giving the piece from that parameter to 1 or from 0 to it. |
| Clipping.StepCodesShrink | static/js/script.js:194-229 | Along an ordered axis, a round removes the clipped bit from `code1 \| code2` and adds no bit. |
| Clipping.StepProgress | static/js/script.js:194-229 | Every round strictly lowers the termination measure, for every window, ordered or not. |
| Clipping.RoundsBound | static/js/script.js:194-229 | The number of clipping rounds before a trivial test decides is at most four, for every window. |
| Clipping.CohenSutherland | static/js/script.js:175-230 | The loop returns `Clip` of its input, whatever the window. Its round counter equals `Rounds` of the input, so at most four rounds clip. |
| ClipProperties.TrivialAccept | static/js/script.js:195-197 | Both endpoints inside gives acceptance with the endpoints unchanged. |
| ClipProperties.TrivialReject | static/js/script.js:199-201 | Both endpoints beyond a common boundary gives rejection. |
| ClipProperties.AcceptedInside | static/js/script.js:194-229 | Whatever the window, both endpoints of an accepted result lie in the closed window. A window that accepts anything is therefore ordered. |
| ClipProperties.Idempotent | static/js/script.js:191-197 | Clipping an accepted result again against the same window returns it unchanged. |
| ClipProperties.AcceptedOnSegment | static/js/script.js:194-229 | For every window, an accepted result is a sub-segment of the input: its endpoints are at parameters 0 <= t1 <= t2 <= 1. |
| ClipProperties.MovedEndOnBoundary | static/js/script.js:203-228 | A round moves the chosen endpoint from strictly beyond the clipped boundary onto it, and keeps the other endpoint. |
| ClipProperties.StepWithin | static/js/script.js:203-228 | For an ordered window, a round cuts off only invisible points: every visible point of the input stays within the new piece. |
| ClipProperties.ClipExactFrom | static/js/script.js:194-229 | Clipping a piece that holds all visible points rejects only when no point is visible, and accepts exactly the visible part. |
| ClipProperties.RejectedMissesWindow | static/js/script.js:199-201 | For every window, a rejected segment has no point in the closed window. |
| ClipProperties.AcceptedIsVisiblePart | static/js/script.js:194-229 | For every window, an accepted segment runs exactly from the first to the last point of the input inside the window, in the input's direction. |
| ViewTransform.ZoomedScale | static/js/script.js:39-42 | After a wheel event the scale is in [5, 50], whatever it was and whatever the wheel direction. It is scale * 1.05 (wheel up) or scale * 0.95 when that is in range, and otherwise the bound it crossed. |
| ViewTransform.ZoomDirection | static/js/script.js:39-42 | From a scale in range, wheel up never lowers it and wheel down never raises it. It stays put exactly when it is pushed against the bound it is at. |
| ViewTransform.ZoomKeepsPointerRatio | static/js/script.js:51-53 | The new offset keeps `(mouse - offset) / scale` unchanged. |
| ViewTransform.ZoomSameScale | static/js/script.js:51-53 | When the clamp leaves the scale unchanged, the offset is unchanged. |
| ViewTransform.ZoomDrift | static/js/script.js:51-53 | The world point under the pointer before the zoom is drawn after it at mouse + (width / 2) * (1 - zoomFactor), not at the pointer. |
| ViewTransform.ZoomAnchorsOnlyWhenUnchanged | static/js/script.js:51-53 | On a canvas of positive width, the pointer's world point stays under the pointer if and only if the scale is unchanged. |
| ViewTransform.CanvasRoundTrip | static/js/script.js:232-239 | With a nonzero scale, the world-to-canvas map and its inverse compose to the identity in both orders. |
| ViewTransform.CanvasOrientation | static/js/script.js:232-239 | With a positive scale, world x grows to the right and world y grows upwards (canvas y falls). |
| ViewTransform.LabelStep | static/js/script.js:247-255 | The label stride is one of 1, 2 and 5. |
| ViewTransform.LabelStepSmallestWide | static/js/script.js:247-255 | For a scale of at least 5, the stride is the smallest of 1, 2 and 5 that puts labels at least 20 pixels apart. |
| ViewTransform.LabelStepAntitone | static/js/script.js:247-255 | A larger scale never gives a larger stride. |
| ViewTransform.DragTelescopes | static/js/script.js:20-30 | Over a whole drag, the offset moves by the pointer's total displacement, whatever the intermediate positions. |
| ViewTransform.Viewport.constructor | static/js/script.js:4-9 | The start state: scale 20, zero offset, no drag. The origin maps to (400, 300) on an 800x600 canvas. |
| ViewTransform.Viewport.MapToCanvas | static/js/script.js:232-239 | The canvas point of (x, y) maps back to (x, y) under the inverse map when the scale is nonzero. |
| ViewTransform.Viewport.MouseDown | static/js/script.js:13-18 | Starts a drag at the pointer; scale and offset unchanged, so the scale invariant `Valid` is kept. |
| ViewTransform.Viewport.MouseMove | static/js/script.js:20-30 | During a drag, the offset moves by the pointer's displacement since the last event and the drag start follows the pointer, so offset minus drag start is preserved; one move is one step of `DragOffset`, whose steps telescope. Outside a drag nothing changes. The scale, and with it `Valid`, is unchanged. |
| ViewTransform.Viewport.MouseUp | static/js/script.js:32-35 | Ends the drag; scale and offset unchanged, so `Valid` is kept. |
| ViewTransform.Viewport.Wheel | static/js/script.js:37-56 | The new scale is the clamped zoom, in [5, 50]. `(mouse - offset) / scale` is kept on both axes. The offsets are unchanged when the scale is. From a scale in range (`Valid`), wheel up never zooms out and wheel down never zooms in. |
| ViewTransform.Viewport.Reset | static/js/script.js:362-364 | Scale back to 20 and offset to zero. |
| SceneState.IndexOf | static/js/script.js:93 | Returns -1 exactly when the entry is absent, and otherwise the index of its first occurrence. |
| SceneState.RemoveAtDistinct | static/js/script.js:96 | Splicing one position out of a duplicate-free list removes exactly that entry and keeps the list duplicate-free. |
| SceneState.Scene.constructor | static/js/script.js:11 | The list starts empty. |
| SceneState.Scene.AddSegment | static/js/script.js:82-83 | A new row holding (0, 0)-(1, 1) is appended; the list stays duplicate-free. |
| SceneState.Scene.RemoveSegment | static/js/script.js:91-100 | The row is spliced out at its index if present, the others keep their order, and otherwise nothing changes. Afterwards it is not in the list, and the list lost exactly that one entry. |
| SceneState.Scene.EditSegment | static/js/script.js:324-328 | Editing a listed row's input fields sets that row's coordinates, which the next clip reads. No other row changes, and the list stays as it was. |
| SceneState.Scene.Clear | static/js/script.js:359-361 | The list becomes empty. |
| SceneState.Scene.ClipSegments | static/js/script.js:323-341 | The i-th result is the clipping of the i-th row, for every row in order. Every accepted result lies in the window. |
| SceneState.RandomWindow | static/js/script.js:159-162 | For draws in range, -10 <= xmin <= xmax <= 10 and -10 <= ymin <= ymax <= 10, so the window is ordered. |
| SceneState.RandomWindowCovers | static/js/script.js:159-162 | Every ordered integer window in [-10, 10] is produced by some draws in range. |
| App.ResetCanvas | static/js/script.js:359-368 | The segment list is empty, the scale is 20 and the offset is zero. |

## Left out

- Canvas drawing (`drawGrid` strokes and labels, the drawing half of
  `clipSegments`, `redraw`) is not modelled. It only renders the state the model
  covers.
- DOM work is not modelled: the form rows' HTML, `updateSegmentNumbers`,
  `getClipWindow`'s element lookups, `getBoundingClientRect` and cursor styling.
  - The pointer is given to `Wheel` already relative to the canvas.
  - A row's coordinates are the `data` of its `SegmentEntry`. They stand for
    the values its input fields hold when the rows are clipped, not for the
    `data` object created with the row, which the source never reads.
  - The clip window is passed in as a value.
- `parseInt`/`parseFloat` and `NaN` inputs are not modelled. Coordinates are
  taken as already-parsed numbers.
- `Math.random()` is replaced by its draws, as integer parameters `k` with
  `0 <= k < n`.
- IEEE floating point is replaced by exact real arithmetic. `toFixed` and the
  label font size are not modelled.
- `updateScale` (the slider handler) is not modelled. It stores the slider's
  value without clamping.
- `generateRandomSegments` is not modelled. It is form glue around
  `Math.random()`.
- The grid-line pixel loops in `drawGrid` are not modelled.
- ViewTransform.Viewport.Wheel: requires a nonzero previous scale. The source
  divides by it. A zero scale is reachable only through the slider, and in
  the source it makes the offsets infinite or NaN, which reals cannot express.
