/**
 * Panning and zooming the map display (src/scene.js): the scene container's
 * scale, pivot and position, the drag state of the drag handlers, the
 * mouse-wheel zoom and the step that keeps the map inside the canvas.
 *
 * Pixi's `toLocal` is taken to be the affine map of an unrotated container on
 * an identity stage: `local = (global - position) / scale + pivot`.
 */
module Viewport {
  import opened Common

  /** The container's transform: scale, pivot and position on both axes. */
  datatype Transform = Transform(
    scaleX: real, scaleY: real,
    pivotX: real, pivotY: real,
    posX: real, posY: real)

  /** `toLocal`: a canvas point in the container's own (map pixel) coordinates. */
  function ToLocal(t: Transform, gx: real, gy: real): (real, real)
    requires t.scaleX != 0.0 && t.scaleY != 0.0
  {
    ((gx - t.posX) / t.scaleX + t.pivotX, (gy - t.posY) / t.scaleY + t.pivotY)
  }

  /** `toLocal` and the container's placement undo each other. */
  lemma ToLocalInverse(t: Transform, gx: real, gy: real)
    requires t.scaleX != 0.0 && t.scaleY != 0.0
    ensures (ToLocal(t, gx, gy).0 - t.pivotX) * t.scaleX + t.posX == gx
    ensures (ToLocal(t, gx, gy).1 - t.pivotY) * t.scaleY + t.posY == gy
  {
    DivThenMul(gx - t.posX, t.scaleX);
    DivThenMul(gy - t.posY, t.scaleY);
  }

  lemma DivThenMul(a: real, b: real)
    requires b != 0.0
    ensures (a / b) * b == a
  {
  }

  /** `1.1` to the power of the wheel direction: scrolling down (`deltaY > 0`) shrinks, anything else grows. */
  function ZoomFactor(deltaY: real): (k: real)
    ensures deltaY > 0.0 ==> k < 1.0
    ensures deltaY <= 0.0 ==> k > 1.0
    ensures k * (if deltaY > 0.0 then 11.0 / 10.0 else 10.0 / 11.0) == 1.0
  {
    if deltaY > 0.0 then 10.0 / 11.0 else 11.0 / 10.0
  }

  /** The farthest the map may be zoomed out: the smaller canvas side over the map's pixel width. */
  function MinScale(canvasW: real, canvasH: real, pixWidth: real): (m: real)
    requires 0.0 < pixWidth
    ensures 0.0 < canvasW && 0.0 < canvasH ==> 0.0 < m
    ensures m * pixWidth <= canvasW && m * pixWidth <= canvasH
  {
    (if canvasW < canvasH then canvasW else canvasH) / pixWidth
  }

  /**
   * The transform `zoomHandler` sets before constraining: the scaled zoom
   * about the cursor, or, when either scaled axis would not exceed the
   * minimum, the minimum scale with pivot and position at the origin.
   * `scale.set` writes the x value to both axes.
   */
  function Zoomed(t: Transform, ex: real, ey: real, deltaY: real, canvasW: real, canvasH: real, pixWidth: real): (z: Transform)
    requires t.scaleX != 0.0 && t.scaleY != 0.0 && 0.0 < pixWidth
  {
    var g := ToLocal(t, ex, ey);
    var minScale := MinScale(canvasW, canvasH, pixWidth);
    var sx := t.scaleX * ZoomFactor(deltaY);
    var sy := t.scaleY * ZoomFactor(deltaY);
    if sx > minScale && sy > minScale then Transform(sx, sx, g.0, g.1, ex, ey)
    else Transform(minScale, minScale, 0.0, 0.0, 0.0, 0.0)
  }

  /**
   * After the zoom step both axes share one scale, no smaller than the
   * minimum; the clamp branch puts exactly the minimum, with pivot and
   * position at the origin, and otherwise the scale is the old x scale times
   * the wheel factor.
   */
  lemma ZoomedScale(t: Transform, ex: real, ey: real, deltaY: real, canvasW: real, canvasH: real, pixWidth: real)
    requires t.scaleX != 0.0 && t.scaleY != 0.0 && 0.0 < pixWidth
    ensures var z := Zoomed(t, ex, ey, deltaY, canvasW, canvasH, pixWidth);
      var m := MinScale(canvasW, canvasH, pixWidth);
      z.scaleX == z.scaleY && m <= z.scaleX &&
      (z.scaleX == t.scaleX * ZoomFactor(deltaY) || (z == Transform(m, m, 0.0, 0.0, 0.0, 0.0)))
    ensures var z := Zoomed(t, ex, ey, deltaY, canvasW, canvasH, pixWidth);
      var m := MinScale(canvasW, canvasH, pixWidth);
      t.scaleX * ZoomFactor(deltaY) <= m || t.scaleY * ZoomFactor(deltaY) <= m <==>
        z == Transform(m, m, 0.0, 0.0, 0.0, 0.0)
  {
    var m := MinScale(canvasW, canvasH, pixWidth);
    var sx := t.scaleX * ZoomFactor(deltaY);
    var sy := t.scaleY * ZoomFactor(deltaY);
    if sx > m && sy > m {
      assert Zoomed(t, ex, ey, deltaY, canvasW, canvasH, pixWidth).scaleX == sx;
    }
  }

  /** A zoom that is not clamped keeps the map point under the cursor in place. */
  lemma ZoomedKeepsPointer(t: Transform, ex: real, ey: real, deltaY: real, canvasW: real, canvasH: real, pixWidth: real)
    requires 0.0 < t.scaleX && 0.0 < t.scaleY && 0.0 < pixWidth
    requires var m := MinScale(canvasW, canvasH, pixWidth);
      t.scaleX * ZoomFactor(deltaY) > m && t.scaleY * ZoomFactor(deltaY) > m
    ensures var z := Zoomed(t, ex, ey, deltaY, canvasW, canvasH, pixWidth);
      z.scaleX != 0.0 && z.scaleY != 0.0 && ToLocal(z, ex, ey) == ToLocal(t, ex, ey)
  {
    var z := Zoomed(t, ex, ey, deltaY, canvasW, canvasH, pixWidth);
    assert z.scaleX == t.scaleX * ZoomFactor(deltaY);
    assert (ex - ex) / z.scaleX == 0.0;
  }

  /** The position that moves a local coordinate `edge` back onto `size` at the given scale. */
  function Shifted(pos: real, scale: real, edge: real, size: real): real {
    pos + scale * (edge - size)
  }

  function Min(a: real, b: real): real {
    if a < b then a else b
  }

  /**
   * The horizontal half of `constrainSceneContainer`, from the local x of the
   * canvas's left (`left`) and right (`right`) edges: the new (pivot, position).
   */
  function ConstrainX(t: Transform, left: real, right: real, canvasW: real, pixWidth: real): (pivotAndPos: (real, real)) {
    if left < 0.0 then (0.0, 0.0)
    else if right > pixWidth then
      var newX := Shifted(t.posX, t.scaleX, right, pixWidth);
      if pixWidth * t.scaleX < canvasW then (0.0, Min(newX, 0.0)) else (t.pivotX, newX)
    else (t.pivotX, t.posX)
  }

  /** The vertical half: as written, it uses the x scale in both places. */
  function ConstrainY(t: Transform, top: real, bottom: real, canvasH: real, pixHeight: real): (pivotAndPos: (real, real)) {
    if top < 0.0 then (0.0, 0.0)
    else if bottom > pixHeight then
      var newY := Shifted(t.posY, t.scaleX, bottom, pixHeight);
      if pixHeight * t.scaleX < canvasH then (0.0, Min(newY, 0.0)) else (t.pivotY, newY)
    else (t.pivotY, t.posY)
  }

  /** `constrainSceneContainer`: both corners are read once, then each axis is adjusted. */
  function Constrained(t: Transform, canvasW: real, canvasH: real, pixWidth: real, pixHeight: real): (c: Transform)
    requires t.scaleX != 0.0 && t.scaleY != 0.0
    ensures c.scaleX == t.scaleX && c.scaleY == t.scaleY
  {
    var pt0 := ToLocal(t, 0.0, 0.0);
    var pt1 := ToLocal(t, canvasW, canvasH);
    var (px, x) := ConstrainX(t, pt0.0, pt1.0, canvasW, pixWidth);
    var (py, y) := ConstrainY(t, pt0.1, pt1.1, canvasH, pixHeight);
    t.(pivotX := px, posX := x, pivotY := py, posY := y)
  }

  /** When the canvas's left edge showed space left of the map, the map's left edge is put back on it. */
  lemma ConstrainedLeftEdge(t: Transform, canvasW: real, canvasH: real, pixWidth: real, pixHeight: real)
    requires t.scaleX != 0.0 && t.scaleY != 0.0
    requires ToLocal(t, 0.0, 0.0).0 < 0.0
    ensures var c := Constrained(t, canvasW, canvasH, pixWidth, pixHeight);
      c.pivotX == 0.0 && c.posX == 0.0 && ToLocal(c, 0.0, 0.0).0 == 0.0
  {
  }

  /**
   * When the canvas's right edge showed space right of the map and the map is
   * at least as wide as the canvas, the canvas's right edge lands exactly on
   * the map's right edge.
   */
  lemma ConstrainedRightEdge(t: Transform, canvasW: real, canvasH: real, pixWidth: real, pixHeight: real)
    requires t.scaleX != 0.0 && t.scaleY != 0.0
    requires 0.0 <= ToLocal(t, 0.0, 0.0).0 && ToLocal(t, canvasW, canvasH).0 > pixWidth
    requires canvasW <= pixWidth * t.scaleX
    ensures ToLocal(Constrained(t, canvasW, canvasH, pixWidth, pixHeight), canvasW, canvasH).0 == pixWidth
  {
    var right := ToLocal(t, canvasW, canvasH).0;
    var c := Constrained(t, canvasW, canvasH, pixWidth, pixHeight);
    assert !(pixWidth * t.scaleX < canvasW);
    assert ConstrainX(t, ToLocal(t, 0.0, 0.0).0, right, canvasW, pixWidth) == (t.pivotX, Shifted(t.posX, t.scaleX, right, pixWidth));
    assert c.pivotX == t.pivotX && c.scaleX == t.scaleX;
    assert c.posX == t.posX + t.scaleX * (right - pixWidth);
    calc {
      ToLocal(c, canvasW, canvasH).0;
      (canvasW - t.posX - t.scaleX * (right - pixWidth)) / t.scaleX + t.pivotX;
      { ShiftDiv(canvasW - t.posX, right - pixWidth, t.scaleX); }
      (canvasW - t.posX) / t.scaleX - (right - pixWidth) + t.pivotX;
      pixWidth;
    }
  }

  /**
   * The vertical counterpart, for a container whose two scales agree (as
   * every zoom leaves them): the canvas's bottom edge lands on the map's.
   */
  lemma ConstrainedBottomEdge(t: Transform, canvasW: real, canvasH: real, pixWidth: real, pixHeight: real)
    requires 0.0 < t.scaleX == t.scaleY
    requires 0.0 <= ToLocal(t, 0.0, 0.0).1 && ToLocal(t, canvasW, canvasH).1 > pixHeight
    requires canvasH <= pixHeight * t.scaleX
    ensures ToLocal(Constrained(t, canvasW, canvasH, pixWidth, pixHeight), canvasW, canvasH).1 == pixHeight
  {
    var bottom := ToLocal(t, canvasW, canvasH).1;
    var c := Constrained(t, canvasW, canvasH, pixWidth, pixHeight);
    assert !(pixHeight * t.scaleX < canvasH);
    assert ConstrainY(t, ToLocal(t, 0.0, 0.0).1, bottom, canvasH, pixHeight) == (t.pivotY, Shifted(t.posY, t.scaleX, bottom, pixHeight));
    assert c.pivotY == t.pivotY && c.scaleY == t.scaleY;
    assert c.posY == t.posY + t.scaleX * (bottom - pixHeight);
    var k := t.scaleX;
    calc {
      ToLocal(c, canvasW, canvasH).1;
      (canvasH - c.posY) / k + c.pivotY;
      (canvasH - t.posY - k * (bottom - pixHeight)) / k + t.pivotY;
      { ShiftDiv(canvasH - t.posY, bottom - pixHeight, k); }
      (canvasH - t.posY) / k - (bottom - pixHeight) + t.pivotY;
      pixHeight;
    }
  }

  lemma ShiftDiv(a: real, d: real, s: real)
    requires s != 0.0
    ensures (a - s * d) / s == a / s - d
  {
    calc {
      (a - s * d) / s;
      a / s - (s * d) / s;
      { assert (s * d) / s == d; }
      a / s - d;
    }
  }

  /** A move while dragging: the container follows the cursor and the drag restarts there. */
  function Dragged(t: Transform, start: (real, real), p: (real, real)): (d: Transform)
    ensures d.posX - p.0 == t.posX - start.0 && d.posY - p.1 == t.posY - start.1
    ensures d.scaleX == t.scaleX && d.scaleY == t.scaleY && d.pivotX == t.pivotX && d.pivotY == t.pivotY
  {
    t.(posX := t.posX + (p.0 - start.0), posY := t.posY + (p.1 - start.1))
  }

  /** The container after a drag through `points`, started at `start`. */
  function DragThrough(t: Transform, start: (real, real), points: seq<(real, real)>): Transform
    decreases |points|
  {
    if points == [] then t
    else DragThrough(Dragged(t, start, points[0]), points[0], points[1..])
  }

  /** A whole drag moves the container by the last cursor position minus the first. */
  lemma {:induction false} DragTotal(t: Transform, start: (real, real), points: seq<(real, real)>)
    requires points != []
    ensures var d := DragThrough(t, start, points);
      d.posX == t.posX + (points[|points| - 1].0 - start.0) &&
      d.posY == t.posY + (points[|points| - 1].1 - start.1)
    ensures var d := DragThrough(t, start, points);
      d.scaleX == t.scaleX && d.scaleY == t.scaleY && d.pivotX == t.pivotX && d.pivotY == t.pivotY
    decreases |points|
  {
    if |points| > 1 {
      DragTotal(Dragged(t, start, points[0]), points[0], points[1..]);
      assert points[1..][|points[1..]| - 1] == points[|points| - 1];
    }
  }

  /**
   * The scene container of `MBotScene` and the `dragStart` its drag
   * handlers keep. The map's pixel size is fixed; the canvas size is read at
   * each event.
   */
  class SceneContainer {
    const pixWidth: real
    const pixHeight: real
    var scaleX: real
    var scaleY: real
    var pivotX: real
    var pivotY: real
    var posX: real
    var posY: real
    var dragStart: Option<(real, real)>

    /** The container's current transform. */
    function Current(): Transform
      reads this
    {
      Transform(scaleX, scaleY, pivotX, pivotY, posX, posY)
    }

    /** Both axes share one positive scale. */
    predicate Valid()
      reads this
    {
      0.0 < pixWidth && 0.0 < scaleX && scaleX == scaleY
    }

    /** An untransformed container, no drag in progress. */
    constructor(pixWidth: real, pixHeight: real)
      requires 0.0 < pixWidth
      ensures Valid() && this.pixWidth == pixWidth && this.pixHeight == pixHeight
      ensures Current() == Transform(1.0, 1.0, 0.0, 0.0, 0.0, 0.0) && dragStart == None
    {
      this.pixWidth := pixWidth;
      this.pixHeight := pixHeight;
      scaleX, scaleY := 1.0, 1.0;
      pivotX, pivotY := 0.0, 0.0;
      posX, posY := 0.0, 0.0;
      dragStart := None;
    }

    /** `pointerdown`: remember where the drag started. */
    method PointerDown(p: (real, real))
      modifies this
      ensures dragStart == Some(p) && Current() == old(Current())
    {
      dragStart := Some(p);
    }

    /** `pointermove`: without a drag nothing happens; during one the container follows the cursor. */
    method PointerMove(p: (real, real))
      requires Valid()
      modifies this
      ensures Valid()
      ensures old(dragStart) == None ==> dragStart == None && Current() == old(Current())
      ensures old(dragStart).Some? ==>
        dragStart == Some(p) && Current() == Dragged(old(Current()), old(dragStart).value, p)
    {
      match dragStart
      case Some(start) =>
        var dragNewX := p.0 - start.0;
        var dragNewY := p.1 - start.1;
        posX := posX + dragNewX;
        posY := posY + dragNewY;
        dragStart := Some(p);
      case None =>
    }

    /** `pointerup` and `pointerupoutside`: end the drag and pull the map back into view. */
    method PointerUp(canvasW: real, canvasH: real)
      requires Valid()
      modifies this
      ensures Valid() && dragStart == None
      ensures Current() == Constrained(old(Current()), canvasW, canvasH, pixWidth, pixHeight)
    {
      dragStart := None;
      Constrain(canvasW, canvasH);
    }

    /** `constrainSceneContainer`, updating the fields in the order the source does. */
    method Constrain(canvasW: real, canvasH: real)
      requires Valid()
      modifies this
      ensures Valid() && dragStart == old(dragStart)
      ensures Current() == Constrained(old(Current()), canvasW, canvasH, pixWidth, pixHeight)
    {
      var t := Current();
      var pt0 := ToLocal(t, 0.0, 0.0);
      var pt1 := ToLocal(t, canvasW, canvasH);
      if pt0.0 < 0.0 {
        pivotX := 0.0;
        posX := 0.0;
      } else if pt1.0 > pixWidth {
        var newX := Shifted(t.posX, t.scaleX, pt1.0, pixWidth);
        if pixWidth * t.scaleX < canvasW {
          pivotX := 0.0;
          newX := Min(newX, 0.0);
        }
        posX := newX;
      }
      assert (pivotX, posX) == ConstrainX(t, pt0.0, pt1.0, canvasW, pixWidth);
      if pt0.1 < 0.0 {
        pivotY := 0.0;
        posY := 0.0;
      } else if pt1.1 > pixHeight {
        var newY := Shifted(t.posY, t.scaleX, pt1.1, pixHeight);
        if pixHeight * t.scaleX < canvasH {
          pivotY := 0.0;
          newY := Min(newY, 0.0);
        }
        posY := newY;
      }
      assert (pivotY, posY) == ConstrainY(t, pt0.1, pt1.1, canvasH, pixHeight);
    }

    /** The part of `zoomHandler` before it constrains: zoom about the cursor, or clamp. */
    method ZoomStep(ex: real, ey: real, deltaY: real, canvasW: real, canvasH: real)
      requires Valid() && 0.0 < canvasW && 0.0 < canvasH
      modifies this
      ensures Valid() && dragStart == old(dragStart)
      ensures Current() == Zoomed(old(Current()), ex, ey, deltaY, canvasW, canvasH, pixWidth)
    {
      var globalPos := ToLocal(Current(), ex, ey);
      var minScale := MinScale(canvasW, canvasH, pixWidth);
      var scale := ZoomFactor(deltaY);
      var sx := scaleX * scale;
      var sy := scaleY * scale;
      if sx > minScale && sy > minScale {
        scaleX, scaleY := sx, sx;
        pivotX := globalPos.0;
        pivotY := globalPos.1;
        posX, posY := ex, ey;
      } else {
        scaleX, scaleY := minScale, minScale;
        posX, posY := 0.0, 0.0;
        pivotX := 0.0;
        pivotY := 0.0;
      }
    }

    /**
     * `zoomHandler`: zoom about the cursor by the wheel factor, or clamp to
     * the minimum scale, then constrain.
     */
    method Zoom(ex: real, ey: real, deltaY: real, canvasW: real, canvasH: real)
      requires Valid() && 0.0 < canvasW && 0.0 < canvasH
      modifies this
      ensures Valid() && dragStart == old(dragStart)
      ensures var z := Zoomed(old(Current()), ex, ey, deltaY, canvasW, canvasH, pixWidth);
        z.scaleX != 0.0 && z.scaleY != 0.0 &&
        Current() == Constrained(z, canvasW, canvasH, pixWidth, pixHeight)
    {
      ZoomStep(ex, ey, deltaY, canvasW, canvasH);
      Constrain(canvasW, canvasH);
    }
  }

  /**
   * After a zoom both axes share one scale of at least the minimum, and
   * constraining never changes the scale.
   */
  lemma ZoomThenConstrainScale(t: Transform, ex: real, ey: real, deltaY: real, canvasW: real, canvasH: real, pixWidth: real, pixHeight: real)
    requires 0.0 < t.scaleX && 0.0 < t.scaleY && 0.0 < pixWidth && 0.0 < canvasW && 0.0 < canvasH
    ensures var z := Zoomed(t, ex, ey, deltaY, canvasW, canvasH, pixWidth);
      0.0 < z.scaleX && z.scaleX == z.scaleY &&
      var c := Constrained(z, canvasW, canvasH, pixWidth, pixHeight);
      c.scaleX == c.scaleY == z.scaleX >= MinScale(canvasW, canvasH, pixWidth)
  {
    ZoomedScale(t, ex, ey, deltaY, canvasW, canvasH, pixWidth);
  }
}
