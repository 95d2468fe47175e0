/**
 * The on-screen joystick of src/joy.jsx: a knob dragged inside a square
 * canvas, reported to its callback as a position scaled so that the ring's
 * edge is at 100 per axis (before rounding), and a compass direction.
 */
module Joy {
  import Geometry

  /**
   * `getCardinalDirection`: "N", "S" or "C" by the vertical offset from the
   * centre against a tenth of the canvas height, then "W" or "E" appended by
   * the horizontal offset against a tenth of the width. Both arms of each
   * appending conditional add the same letter, so the centre band yields
   * "CW" and "CE" rather than "W" and "E".
   */
  function CardinalDirection(x: real, y: real, centerX: real, centerY: real, width: real, height: real): string {
    var horizontal := x - centerX;
    var vertical := y - centerY;
    var horizontalLimitPos := width / 10.0;
    var horizontalLimitNeg := horizontalLimitPos * -1.0;
    var verticalLimitPos := height / 10.0;
    var verticalLimitNeg := verticalLimitPos * -1.0;
    var r0 := if verticalLimitNeg <= vertical <= verticalLimitPos then "C" else "";
    var r1 := if vertical < verticalLimitNeg then "N" else r0;
    var r2 := if vertical > verticalLimitPos then "S" else r1;
    var r3 := if horizontal < horizontalLimitNeg then r2 + (if r2 == "C" then "W" else "W") else r2;
    if horizontal > horizontalLimitPos then r3 + (if r3 == "C" then "E" else "E") else r3
  }

  /**
   * On a canvas of non-negative size the result is one vertical letter, "N"
   * exactly above the band of a tenth of the height around the centre, "S"
   * exactly below it and "C" within it, followed by at most one horizontal
   * letter: "W" exactly left of the band of a tenth of the width, "E" exactly
   * right of it.
   */
  lemma CardinalDirectionLetters(x: real, y: real, centerX: real, centerY: real, width: real, height: real)
    requires 0.0 <= width && 0.0 <= height
    ensures var r := CardinalDirection(x, y, centerX, centerY, width, height);
      1 <= |r| <= 2 &&
      (r[0] == 'N' <==> y - centerY < -(height / 10.0)) &&
      (r[0] == 'S' <==> y - centerY > height / 10.0) &&
      (r[0] == 'C' <==> -(height / 10.0) <= y - centerY <= height / 10.0) &&
      (|r| == 2 <==> x - centerX < -(width / 10.0) || x - centerX > width / 10.0) &&
      (|r| == 2 ==> (r[1] == 'W' <==> x - centerX < -(width / 10.0))) &&
      (|r| == 2 ==> (r[1] == 'E' <==> x - centerX > width / 10.0))
  {
  }

  /** The centre of the canvas reads "C". */
  lemma CardinalDirectionCentre(centerX: real, centerY: real, width: real, height: real)
    requires 0.0 <= width && 0.0 <= height
    ensures CardinalDirection(centerX, centerY, centerX, centerY, width, height) == "C"
  {
  }

  /** Straight left of the centre reads "CW", not "W". */
  lemma CardinalDirectionCentreBand(centerX: real, centerY: real, width: real, height: real)
    requires 0.0 < width && 0.0 <= height
    ensures CardinalDirection(centerX - width, centerY, centerX, centerY, width, height) == "CW"
    ensures CardinalDirection(centerX + width, centerY, centerX, centerY, width, height) == "CE"
  {
  }

  /** The clamp in `drawInternal`: `max(radius, min(moved, size - radius))`. */
  function KnobPosition(moved: real, radius: real, size: real): real {
    var inner := if moved < size - radius then moved else size - radius;
    if radius < inner then inner else radius
  }

  /** When the knob fits, it is drawn inside the canvas by its radius, and a position already inside is kept. */
  lemma KnobPositionInside(moved: real, radius: real, size: real)
    requires 2.0 * radius <= size
    ensures radius <= KnobPosition(moved, radius, size) <= size - radius
    ensures radius <= moved <= size - radius ==> KnobPosition(moved, radius, size) == moved
  {
  }

  /** The three radii of the set-up effect. */
  datatype Radii = Radii(internal: real, maxMoveStick: real, external: real)

  /** `internalRadius = (w - (w/2 + 10)) / 2`, `maxMoveStick = internalRadius + 5`, `externalRadius = internalRadius + 30`. */
  function RadiiFor(canvasWidth: real): Radii {
    var internal := (canvasWidth - (canvasWidth / 2.0 + 10.0)) / 2.0;
    Radii(internal, internal + 5.0, internal + 30.0)
  }

  /** The radii are a quarter of the width shifted: the knob can move a quarter of the width, and fits a canvas of width at least -20. */
  lemma RadiiQuarter(canvasWidth: real)
    ensures RadiiFor(canvasWidth).internal == canvasWidth / 4.0 - 5.0
    ensures RadiiFor(canvasWidth).maxMoveStick == canvasWidth / 4.0
    ensures RadiiFor(canvasWidth).external == canvasWidth / 4.0 + 25.0
    ensures 2.0 * RadiiFor(canvasWidth).internal <= canvasWidth <==> -20.0 <= canvasWidth
  {
  }

  /** `canvas.width = width > 0 ? width : container.clientWidth` (and likewise for the height). */
  function CanvasSize(param: real, client: real): (size: real)
    ensures 0.0 < param ==> size == param
    ensures param <= 0.0 ==> size == client
  {
    if param > 0.0 then param else client
  }

  /** A report to the callback: the raw position, the scaled offsets before `toFixed`, the direction and whether the stick is held. */
  datatype StickStatus = StickStatus(
    xPosition: real,
    yPosition: real,
    x: real,
    y: real,
    cardinalDirection: string,
    active: bool)

  /** `updateStickStatus`: offsets from the centre in hundredths of `maxMoveStick`, the vertical one negated so that up is positive. */
  function Status(x: real, y: real, active: bool, centerX: real, centerY: real, maxMoveStick: real,
                  width: real, height: real): StickStatus
    requires maxMoveStick != 0.0
  {
    StickStatus(x, y,
      100.0 * ((x - centerX) / maxMoveStick),
      (100.0 * ((y - centerY) / maxMoveStick)) * -1.0,
      CardinalDirection(x, y, centerX, centerY, width, height),
      active)
  }

  lemma DivBounds(d: real, m: real)
    requires 0.0 < m
    ensures -m <= d <= m <==> -1.0 <= d / m <= 1.0
  {
    Geometry.DivThenMul(d, m);
    if -1.0 <= d / m <= 1.0 {
      Geometry.MulLe(-1.0, d / m, m);
      Geometry.MulLe(d / m, 1.0, m);
    }
  }

  lemma DivSign(d: real, m: real)
    requires 0.0 < m
    ensures 0.0 < d / m <==> 0.0 < d
    ensures d / m < 0.0 <==> d < 0.0
  {
    if 0.0 < d {
      assert 0.0 < d / m;
    } else if d < 0.0 {
      assert d / m < 0.0;
    }
  }

  /**
   * The reported offsets lie in [-100, 100] exactly within `maxMoveStick` of
   * the centre: the moves are listened for on the whole document and are not
   * clamped, so a drag past the ring reports more than 100. Right of the centre is positive, and above it (smaller
   * screen y) is positive.
   */
  lemma StatusScale(x: real, y: real, active: bool, centerX: real, centerY: real, maxMoveStick: real,
                    width: real, height: real)
    requires 0.0 < maxMoveStick
    ensures var s := Status(x, y, active, centerX, centerY, maxMoveStick, width, height);
      (-maxMoveStick <= x - centerX <= maxMoveStick <==> -100.0 <= s.x <= 100.0) &&
      (-maxMoveStick <= y - centerY <= maxMoveStick <==> -100.0 <= s.y <= 100.0) &&
      (0.0 < s.x <==> centerX < x) &&
      (0.0 < s.y <==> y < centerY)
  {
    DivSign(x - centerX, maxMoveStick);
    DivSign(y - centerY, maxMoveStick);
    DivBounds(x - centerX, maxMoveStick);
    DivBounds(y - centerY, maxMoveStick);
  }

  /** The centre reports zero offsets and "C". */
  lemma StatusCentre(active: bool, centerX: real, centerY: real, maxMoveStick: real, width: real, height: real)
    requires maxMoveStick != 0.0 && 0.0 <= width && 0.0 <= height
    ensures Status(centerX, centerY, active, centerX, centerY, maxMoveStick, width, height)
      == StickStatus(centerX, centerY, 0.0, 0.0, "C", active)
  {
  }

  /** A mounted `JoyStick`: its canvas, centre, radius refs, hook state and the reports it has made. */
  class Joystick {
    const autoReturnToCenter: bool
    /** The `width` and `height` parameters; 0 or less means "the container's". */
    const widthParam: real
    const heightParam: real
    var canvasWidth: real
    var canvasHeight: real
    var centerX: real
    var centerY: real
    var internalRadius: real
    var maxMoveStick: real
    var externalRadius: real
    var moved: (real, real)
    var pressed: bool
    var reported: seq<StickStatus>

    predicate Valid()
      reads this
    {
      0.0 < canvasWidth && 0.0 <= canvasHeight &&
      centerX == canvasWidth / 2.0 && centerY == canvasHeight / 2.0 &&
      Radii(internalRadius, maxMoveStick, externalRadius) == RadiiFor(canvasWidth)
    }

    /**
     * Mounting: the hook state starts released, and the set-up effect sizes
     * the canvas from the parameters or the container, centres the knob and
     * sets the radii.
     */
    constructor(width: real, height: real, clientWidth: real, clientHeight: real, autoReturnToCenter: bool)
      requires 0.0 < CanvasSize(width, clientWidth) && 0.0 <= CanvasSize(height, clientHeight)
      ensures Valid() && this.autoReturnToCenter == autoReturnToCenter
      ensures widthParam == width && heightParam == height
      ensures canvasWidth == CanvasSize(width, clientWidth) && canvasHeight == CanvasSize(height, clientHeight)
      ensures moved == (centerX, centerY) && !pressed && reported == []
    {
      this.autoReturnToCenter := autoReturnToCenter;
      widthParam, heightParam := width, height;
      pressed := false;
      reported := [];
      new;
      SetUp(clientWidth, clientHeight);
    }

    /**
     * The set-up effect: it sizes the canvas from the parameters or the
     * container, centres the knob and sets the radii. It runs at mount and
     * again whenever one of the handlers it registers changes identity: the
     * move handlers depend on `pressed`, and the move and up handlers depend,
     * through `updateStickStatus`, on the `callback` prop. The model takes
     * `callback` to keep its identity, so the effect re-runs exactly when
     * `pressed` changes.
     */
    method SetUp(clientWidth: real, clientHeight: real)
      requires 0.0 < CanvasSize(widthParam, clientWidth) && 0.0 <= CanvasSize(heightParam, clientHeight)
      modifies this
      ensures Valid()
      ensures canvasWidth == CanvasSize(widthParam, clientWidth) && canvasHeight == CanvasSize(heightParam, clientHeight)
      ensures moved == (centerX, centerY) && pressed == old(pressed) && reported == old(reported)
    {
      var w := if widthParam > 0.0 then widthParam else clientWidth;
      var h := if heightParam > 0.0 then heightParam else clientHeight;
      canvasWidth, canvasHeight := w, h;
      centerX, centerY := w / 2.0, h / 2.0;
      moved := (w / 2.0, h / 2.0);
      var ir := (w - (w / 2.0 + 10.0)) / 2.0;
      internalRadius := ir;
      maxMoveStick := ir + 5.0;
      externalRadius := ir + 30.0;
    }

    /** The knob's drawn centre: `moved` clamped by `drawInternal`. */
    function Knob(): (k: (real, real))
      reads this
      requires Valid()
      ensures internalRadius <= k.0 <= canvasWidth - internalRadius
      ensures internalRadius <= k.1 <= canvasHeight - internalRadius ||
              canvasHeight < 2.0 * internalRadius
    {
      RadiiQuarter(canvasWidth);
      KnobPositionInside(moved.0, internalRadius, canvasWidth);
      (KnobPosition(moved.0, internalRadius, canvasWidth), KnobPosition(moved.1, internalRadius, canvasHeight))
    }

    function StatusAt(x: real, y: real, active: bool): StickStatus
      reads this
      requires Valid()
    {
      Status(x, y, active, centerX, centerY, maxMoveStick, canvasWidth, canvasHeight)
    }

    /**
     * `onMouseDown` and `onTouchStart`: pressed. A press that changes
     * `pressed` re-runs the set-up effect, which re-sizes the canvas from the
     * container's current size and re-centres the knob.
     */
    method Press(clientWidth: real, clientHeight: real)
      requires Valid()
      requires !pressed ==> 0.0 < CanvasSize(widthParam, clientWidth) && 0.0 <= CanvasSize(heightParam, clientHeight)
      modifies this
      ensures Valid() && pressed && reported == old(reported)
      ensures old(pressed) ==>
        canvasWidth == old(canvasWidth) && canvasHeight == old(canvasHeight) && moved == old(moved) &&
        centerX == old(centerX) && centerY == old(centerY) && maxMoveStick == old(maxMoveStick)
      ensures !old(pressed) ==>
        canvasWidth == CanvasSize(widthParam, clientWidth) && canvasHeight == CanvasSize(heightParam, clientHeight) &&
        moved == (centerX, centerY)
    {
      var changed := !pressed;
      pressed := true;
      if changed {
        SetUp(clientWidth, clientHeight);
      }
    }

    /** `onMouseMove`: while pressed, the knob follows the cursor (page position less the canvas offset) and is reported. */
    method MouseMove(pageX: real, pageY: real, offsetLeft: real, offsetTop: real)
      requires Valid()
      modifies this
      ensures Valid() && pressed == old(pressed)
      ensures canvasWidth == old(canvasWidth) && canvasHeight == old(canvasHeight)
      ensures !old(pressed) ==> moved == old(moved) && reported == old(reported)
      ensures old(pressed) ==> (moved == (pageX - offsetLeft, pageY - offsetTop) &&
        reported == old(reported) + [StatusAt(moved.0, moved.1, true)])
    {
      if pressed {
        var newX := pageX - offsetLeft;
        var newY := pageY - offsetTop;
        moved := (newX, newY);
        UpdateStickStatus(newX, newY, true);
      }
    }

    /** `onTouchMove`: as a mouse move, but only for a touch whose target is the canvas. */
    method TouchMove(pageX: real, pageY: real, offsetLeft: real, offsetTop: real, onCanvas: bool)
      requires Valid()
      modifies this
      ensures Valid() && pressed == old(pressed)
      ensures canvasWidth == old(canvasWidth) && canvasHeight == old(canvasHeight)
      ensures !(old(pressed) && onCanvas) ==> moved == old(moved) && reported == old(reported)
      ensures old(pressed) && onCanvas ==> (moved == (pageX - offsetLeft, pageY - offsetTop) &&
        reported == old(reported) + [StatusAt(moved.0, moved.1, true)])
    {
      if pressed {
        if onCanvas {
          var newX := pageX - offsetLeft;
          var newY := pageY - offsetTop;
          moved := (newX, newY);
          UpdateStickStatus(newX, newY, true);
        }
      }
    }

    /**
     * `onMouseUp` and `onTouchEnd`: release, return the knob if configured,
     * and report the centre as inactive. A release that changes `pressed`
     * re-runs the set-up effect, so the knob ends centred whatever
     * `autoReturnToCenter` says; only a release while already released keeps
     * it off-centre.
     */
    method Release(clientWidth: real, clientHeight: real)
      requires Valid()
      requires pressed ==> 0.0 < CanvasSize(widthParam, clientWidth) && 0.0 <= CanvasSize(heightParam, clientHeight)
      modifies this
      ensures Valid() && !pressed
      ensures reported == old(reported) + [StickStatus(old(centerX), old(centerY), 0.0, 0.0, "C", false)]
      ensures old(pressed) ==>
        canvasWidth == CanvasSize(widthParam, clientWidth) && canvasHeight == CanvasSize(heightParam, clientHeight) &&
        moved == (centerX, centerY)
      ensures !old(pressed) ==>
        canvasWidth == old(canvasWidth) && canvasHeight == old(canvasHeight) &&
        moved == (if autoReturnToCenter then (centerX, centerY) else old(moved))
    {
      var changed := pressed;
      pressed := false;
      if autoReturnToCenter {
        moved := (centerX, centerY);
      }
      StatusCentre(false, centerX, centerY, maxMoveStick, canvasWidth, canvasHeight);
      UpdateStickStatus(centerX, centerY, false);
      if changed {
        SetUp(clientWidth, clientHeight);
      }
    }

    /** `updateStickStatus`: hand one report to the callback. */
    method UpdateStickStatus(x: real, y: real, active: bool)
      requires Valid()
      modifies this
      ensures Valid() && reported == old(reported) + [StatusAt(x, y, active)]
      ensures canvasWidth == old(canvasWidth) && canvasHeight == old(canvasHeight)
      ensures centerX == old(centerX) && centerY == old(centerY)
      ensures moved == old(moved) && pressed == old(pressed)
    {
      reported := reported + [StatusAt(x, y, active)];
    }
  }
}
