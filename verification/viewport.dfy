/** The viewport: the scale and the pan offset that map world coordinates to
    canvas pixels, changed by dragging, by the mouse wheel and by a reset. */
module ViewTransform {

  const MinScale: real := 5.0
  const MaxScale: real := 50.0
  const DefaultScale: real := 20.0
  /** The relative change of the scale per wheel event. */
  const ZoomIntensity: real := 0.05

  function Min(a: real, b: real): real { if a <= b then a else b }
  function Max(a: real, b: real): real { if a >= b then a else b }

  /** The factor one wheel event applies to the scale: zoom in when the wheel
      turns up (negative deltaY), out otherwise. */
  function WheelFactor(deltaY: real): real {
    if deltaY < 0.0 then 1.0 + ZoomIntensity else 1.0 - ZoomIntensity
  }

  /** The scale after one wheel event, clamped to [MinScale, MaxScale]. */
  function ZoomedScale(scale: real, deltaY: real): (r: real)
    ensures MinScale <= r <= MaxScale
    ensures MinScale <= scale * WheelFactor(deltaY) <= MaxScale ==> r == scale * WheelFactor(deltaY)
    ensures scale * WheelFactor(deltaY) < MinScale ==> r == MinScale
    ensures MaxScale < scale * WheelFactor(deltaY) ==> r == MaxScale
  {
    Min(Max(MinScale, scale * WheelFactor(deltaY)), MaxScale)
  }

  /** From a scale in range, wheeling up never zooms out and wheeling down
      never zooms in; the scale stays put only at the bound it is pushed
      against. */
  lemma ZoomDirection(scale: real, deltaY: real)
    requires MinScale <= scale <= MaxScale
    ensures deltaY < 0.0 ==> scale <= ZoomedScale(scale, deltaY)
    ensures deltaY >= 0.0 ==> ZoomedScale(scale, deltaY) <= scale
    ensures ZoomedScale(scale, deltaY) == scale <==>
      (deltaY < 0.0 && scale == MaxScale) || (deltaY >= 0.0 && scale == MinScale)
  {
    var f := WheelFactor(deltaY);
    if deltaY < 0.0 {
      assert scale * f == scale + scale * ZoomIntensity;
    } else {
      assert scale * f == scale - scale * ZoomIntensity;
    }
  }

  /** The offset after a zoom from oldScale to newScale at pointer position
      `mouse` (one axis). */
  function ZoomedOffset(offset: real, mouse: real, oldScale: real, newScale: real): real
    requires oldScale != 0.0
  {
    mouse - (newScale / oldScale) * (mouse - offset)
  }

  /** The zoom keeps (mouse - offset) / scale fixed: measured from the offset,
      the pointer stays over the same world distance. */
  lemma ZoomKeepsPointerRatio(offset: real, mouse: real, oldScale: real, newScale: real)
    requires oldScale != 0.0 && newScale != 0.0
    ensures (mouse - ZoomedOffset(offset, mouse, oldScale, newScale)) / newScale == (mouse - offset) / oldScale
  {
    var z := newScale / oldScale;
    assert mouse - ZoomedOffset(offset, mouse, oldScale, newScale) == z * (mouse - offset);
    assert z * (mouse - offset) == newScale * ((mouse - offset) / oldScale);
  }

  /** A zoom that leaves the scale unchanged leaves the offset unchanged. */
  lemma ZoomSameScale(offset: real, mouse: real, scale: real)
    requires scale != 0.0
    ensures ZoomedOffset(offset, mouse, scale, scale) == offset
  {
    assert scale / scale == 1.0;
  }

  /** Canvas x of world x: the canvas centre, shifted by the offset, plus x
      scaled. */
  function CanvasX(width: real, offsetX: real, scale: real, x: real): real {
    width / 2.0 + offsetX + x * scale
  }

  /** Canvas y of world y: the y axis points up in the world and down on the
      canvas. */
  function CanvasY(height: real, offsetY: real, scale: real, y: real): real {
    height / 2.0 + offsetY - y * scale
  }

  /** The world x under canvas x. */
  ghost function WorldX(width: real, offsetX: real, scale: real, px: real): real
    requires scale != 0.0
  {
    (px - width / 2.0 - offsetX) / scale
  }

  /** The world y under canvas y. */
  ghost function WorldY(height: real, offsetY: real, scale: real, py: real): real
    requires scale != 0.0
  {
    (height / 2.0 + offsetY - py) / scale
  }

  /** World to canvas and back, and canvas to world and back, are the
      identity. */
  lemma CanvasRoundTrip(width: real, height: real, offsetX: real, offsetY: real, scale: real,
                        x: real, y: real, px: real, py: real)
    requires scale != 0.0
    ensures WorldX(width, offsetX, scale, CanvasX(width, offsetX, scale, x)) == x
    ensures WorldY(height, offsetY, scale, CanvasY(height, offsetY, scale, y)) == y
    ensures CanvasX(width, offsetX, scale, WorldX(width, offsetX, scale, px)) == px
    ensures CanvasY(height, offsetY, scale, WorldY(height, offsetY, scale, py)) == py
  {
    assert CanvasX(width, offsetX, scale, x) - width / 2.0 - offsetX == x * scale;
    assert height / 2.0 + offsetY - CanvasY(height, offsetY, scale, y) == y * scale;
  }

  /** With a positive scale, larger world x is further right on the canvas
      and larger world y is further up (smaller canvas y). */
  lemma CanvasOrientation(width: real, height: real, offsetX: real, offsetY: real, scale: real,
                          a: real, b: real)
    requires 0.0 < scale && a < b
    ensures CanvasX(width, offsetX, scale, a) < CanvasX(width, offsetX, scale, b)
    ensures CanvasY(height, offsetY, scale, b) < CanvasY(height, offsetY, scale, a)
  {
    var d := b - a;
    assert b * scale == a * scale + d * scale;
    assert 0.0 < d * scale;
  }

  /** Zooming does not keep the world point under the pointer in place: it
      moves on the canvas by (width / 2) * (1 - zoomFactor), because the
      anchoring ignores the centring term of the world-to-canvas map. */
  lemma ZoomDrift(width: real, offset: real, mouse: real, oldScale: real, newScale: real)
    requires oldScale != 0.0
    ensures var w := WorldX(width, offset, oldScale, mouse);
      CanvasX(width, ZoomedOffset(offset, mouse, oldScale, newScale), newScale, w) ==
        mouse + (width / 2.0) * (1.0 - newScale / oldScale)
  {
    var z := newScale / oldScale;
    var w := WorldX(width, offset, oldScale, mouse);
    assert w * newScale == z * (mouse - width / 2.0 - offset);
  }

  /** The pointer's world point stays under the pointer exactly when the
      scale does not change (on a canvas of positive width). */
  lemma ZoomAnchorsOnlyWhenUnchanged(width: real, offset: real, mouse: real, oldScale: real, newScale: real)
    requires oldScale != 0.0 && 0.0 < width
    ensures CanvasX(width, ZoomedOffset(offset, mouse, oldScale, newScale), newScale,
                    WorldX(width, offset, oldScale, mouse)) == mouse
            <==> newScale == oldScale
  {
    ZoomDrift(width, offset, mouse, oldScale, newScale);
    if newScale / oldScale == 1.0 {
      assert newScale == (newScale / oldScale) * oldScale;
    }
  }

  /** The stride between labelled grid lines, in world units. */
  function LabelStep(scale: real): (step: int)
    ensures step == 1 || step == 2 || step == 5
  {
    if scale >= 20.0 then 1
    else if scale >= 10.0 then 2
    else 5
  }

  /** For a scale of at least MinScale, the label stride is the smallest of
      1, 2 and 5 that puts labels at least 20 pixels apart. */
  lemma LabelStepSmallestWide(scale: real)
    requires MinScale <= scale
    ensures LabelStep(scale) as real * scale >= 20.0
    ensures LabelStep(scale) > 1 ==> 1.0 * scale < 20.0
    ensures LabelStep(scale) > 2 ==> 2.0 * scale < 20.0
  {
  }

  /** Zooming in never makes the label stride larger. */
  lemma LabelStepAntitone(s1: real, s2: real)
    requires s1 <= s2
    ensures LabelStep(s2) <= LabelStep(s1)
  {
  }

  /** One drag, as a sequence of pointer positions on one axis, starting at
      `start` with the offset at `offset`: each move adds the pointer's
      displacement since the previous position. */
  function DragOffset(offset: real, start: real, moves: seq<real>): real
    decreases |moves|
  {
    if |moves| == 0 then offset
    else DragOffset(offset + (moves[0] - start), moves[0], moves[1..])
  }

  /** Pan is in canvas pixels: a whole drag moves the offset by the pointer's
      total displacement, whatever the intermediate positions. */
  lemma {:induction false} DragTelescopes(offset: real, start: real, moves: seq<real>)
    requires |moves| > 0
    ensures DragOffset(offset, start, moves) == offset + (moves[|moves| - 1] - start)
    decreases |moves|
  {
    if |moves| > 1 {
      DragTelescopes(offset + (moves[0] - start), moves[0], moves[1..]);
      assert moves[1..][|moves[1..]| - 1] == moves[|moves| - 1];
    }
  }

  /** The viewport state and the drag state of the pointer. */
  class Viewport {
    var scale: real
    var offsetX: real
    var offsetY: real
    var isDragging: bool
    var dragStartX: real
    var dragStartY: real

    /** The scale is within its bounds. */
    ghost predicate Valid()
      reads this
    {
      MinScale <= scale <= MaxScale
    }

    /** The start-up state: default scale, no offset, no drag. */
    constructor()
      ensures Valid() && scale == DefaultScale && offsetX == 0.0 && offsetY == 0.0
      ensures !isDragging && dragStartX == 0.0 && dragStartY == 0.0
      ensures MapToCanvas(800.0, 600.0, 0.0, 0.0) == (400.0, 300.0)
    {
      scale := DefaultScale;
      offsetX, offsetY := 0.0, 0.0;
      isDragging := false;
      dragStartX, dragStartY := 0.0, 0.0;
    }

    /** The canvas position of world point (x, y) on a canvas of the given
        size. */
    function MapToCanvas(width: real, height: real, x: real, y: real): (p: (real, real))
      reads this
      ensures scale != 0.0 ==>
        WorldX(width, offsetX, scale, p.0) == x && WorldY(height, offsetY, scale, p.1) == y
    {
      (CanvasX(width, offsetX, scale, x), CanvasY(height, offsetY, scale, y))
    }

    /** Pressing the button starts a drag at the pointer. */
    method MouseDown(clientX: real, clientY: real)
      modifies this
      ensures isDragging && dragStartX == clientX && dragStartY == clientY
      ensures scale == old(scale) && offsetX == old(offsetX) && offsetY == old(offsetY)
      ensures Valid() == old(Valid())
    {
      isDragging := true;
      dragStartX := clientX;
      dragStartY := clientY;
    }

    /** Moving the pointer during a drag pans by its displacement since the
        last event; outside a drag it changes nothing. */
    method MouseMove(clientX: real, clientY: real)
      modifies this
      ensures old(isDragging) ==>
        offsetX == old(offsetX) + (clientX - old(dragStartX)) &&
        offsetY == old(offsetY) + (clientY - old(dragStartY)) &&
        dragStartX == clientX && dragStartY == clientY
      ensures old(isDragging) ==>
        offsetX - dragStartX == old(offsetX - dragStartX) &&
        offsetY - dragStartY == old(offsetY - dragStartY)
      ensures old(isDragging) ==>
        offsetX == DragOffset(old(offsetX), old(dragStartX), [clientX]) &&
        offsetY == DragOffset(old(offsetY), old(dragStartY), [clientY])
      ensures !old(isDragging) ==>
        offsetX == old(offsetX) && offsetY == old(offsetY) &&
        dragStartX == old(dragStartX) && dragStartY == old(dragStartY)
      ensures scale == old(scale) && isDragging == old(isDragging)
      ensures Valid() == old(Valid())
    {
      if isDragging {
        var dx := clientX - dragStartX;
        var dy := clientY - dragStartY;
        dragStartX := clientX;
        dragStartY := clientY;
        offsetX := offsetX + dx;
        offsetY := offsetY + dy;
      }
    }

    /** Releasing the button ends the drag. */
    method MouseUp()
      modifies this
      ensures !isDragging
      ensures scale == old(scale) && offsetX == old(offsetX) && offsetY == old(offsetY)
      ensures dragStartX == old(dragStartX) && dragStartY == old(dragStartY)
      ensures Valid() == old(Valid())
    {
      isDragging := false;
    }

    /** A wheel event at canvas position (mouseX, mouseY): rescale by the
        wheel factor, clamped, then move the offset by the zoom factor
        towards or away from the pointer. */
    method Wheel(deltaY: real, mouseX: real, mouseY: real)
      requires scale != 0.0
      modifies this
      ensures Valid() && scale == ZoomedScale(old(scale), deltaY)
      ensures (mouseX - offsetX) / scale == (mouseX - old(offsetX)) / old(scale)
      ensures (mouseY - offsetY) / scale == (mouseY - old(offsetY)) / old(scale)
      ensures scale == old(scale) ==> offsetX == old(offsetX) && offsetY == old(offsetY)
      ensures old(Valid()) ==>
        (deltaY < 0.0 ==> old(scale) <= scale) && (deltaY >= 0.0 ==> scale <= old(scale))
      ensures isDragging == old(isDragging) && dragStartX == old(dragStartX) && dragStartY == old(dragStartY)
    {
      var delta := if deltaY < 0.0 then 1.0 + ZoomIntensity else 1.0 - ZoomIntensity;
      var previousScale := scale;
      var newScale := Min(Max(MinScale, previousScale * delta), MaxScale);
      assert newScale == ZoomedScale(previousScale, deltaY);
      var zoomFactor := newScale / previousScale;
      var x, y := offsetX, offsetY;
      var newX := mouseX - zoomFactor * (mouseX - x);
      var newY := mouseY - zoomFactor * (mouseY - y);
      ZoomKeepsPointerRatio(x, mouseX, previousScale, newScale);
      ZoomKeepsPointerRatio(y, mouseY, previousScale, newScale);
      if newScale == previousScale {
        ZoomSameScale(x, mouseX, newScale);
        ZoomSameScale(y, mouseY, newScale);
      }
      if MinScale <= previousScale <= MaxScale {
        ZoomDirection(previousScale, deltaY);
      }
      scale, offsetX, offsetY := newScale, newX, newY;
    }

    /** Back to the default scale and no offset. */
    method Reset()
      modifies this
      ensures Valid() && scale == DefaultScale && offsetX == 0.0 && offsetY == 0.0
      ensures isDragging == old(isDragging) && dragStartX == old(dragStartX) && dragStartY == old(dragStartY)
    {
      offsetX := 0.0;
      offsetY := 0.0;
      scale := DefaultScale;
    }
  }
}
