# mbot_web_app core, modelled in Dafny

This project models the part of the MBot web application that a browser runs
between the robot's socket and the screen. It covers:

- **The occupancy-grid engine of `MBotScene`** (src/scene.js).
  - The map header: grid size, cell size, origin, and the two scales derived from them.
  - The coordinate conversions between world metres, grid cells, buffer indices and canvas pixels.
  - The `#rrggbb` colour parser and the probability-to-colour blend.
  - The buffer of cell values last drawn, and the diff-based redraw that decides which cell rectangles are painted. Every Pixi graphics call is recorded in a draw log.
- **The pan/zoom viewport** (src/scene.js): the scene container's scale, pivot and position, the drag, the mouse-wheel zoom, and the step that pulls the map back into view.
- **The helpers of src/util.js**: `normalizeAngle` and `isDeepEqual`.
- **The keyboard drive panel** (src/driveControls.jsx): three step counters, the pressed flags of the six drive keys, and one `move` command per handled key event.
- **The SLAM-mode and map-polling state machine of `MBotApp`** (src/app.jsx). It covers the mode buttons, the robot's status reports, the map request interval with its count of empty replies, map updates and map clicks. Socket messages are recorded in a `sent` list. The answer to each `confirm()` dialog is a boolean input.
- **The joystick** (src/joy.jsx): the compass classifier, the knob clamp, the radius set-up and the reports made to the callback. It also covers the hook state its mouse and touch handlers change.

The source is JavaScript, and the model maps it to Dafny as follows:

- Numbers are exact `real`s. `int`s are used where the code only ever holds integers: grid sizes, cell values and the drive counters.
- JavaScript's `%` is modelled explicitly: its result takes the sign of the dividend, unlike Dafny's Euclidean `%`. So are `Math.floor`, `Math.ceil`, `parseInt(…, 16)`, `substring` and `toString(16)`.
- `Math.PI` is an abstract positive parameter.
- Constants from the configuration files (canvas size, map colours, `STALE_MAP_COUNT`, `ANG_VEL_MULTIPLIER`) are constructor parameters or constants of the classes.

Layout, one module per file:

| file | module | contents |
|---|---|---|
| common.dfy | Common | `Option` |
| js_number.dfy | JsNumber | `Math.floor`/`ceil`, truncation, JavaScript `%` |
| colour.dfy | Colour | `colourStringToRGB`, `getColor` and their hex helpers |
| geometry.dfy | Geometry | the map frame and the coordinate conversions |
| scene.dfy | Scene | the cell-diff traversal (pure) and the `MBotScene` class |
| viewport.dfy | Viewport | pan/zoom/constrain as functions, and the `SceneContainer` class |
| util.dfy | Util | `normalizeAngle`, `isDeepEqual` |
| drive_controls.dfy | DriveControls | key transitions (pure) and the `DriveControlPanel` class |
| app.dfy | App | polling transitions (pure) and the `MBotApp` class |
| joy.dfy | Joy | classifier, clamp, radii, status, and the `Joystick` class |

## Model

| member | source | states |
|---|---|---|
| JsNumber.Rem | src/util.js:4 | JavaScript `%` by a positive divisor keeps the dividend's sign: a result in [0, b) for a non-negative dividend, in (-b, 0] for a negative one |
| JsNumber.RemInt | src/scene.js:257 | integer `%` with the sign of the dividend, bounded by the divisor's magnitude; it equals Dafny's `%` for non-negative operands |
| Colour.ParseInt16 | src/scene.js:6-8 | `parseInt(s, 16)` reads a non-empty all-hex string as its hex value; the empty string gives NaN (`None`) |
| Colour.ColourStringToRGB | src/scene.js:5-10 | always three channels; a string of length at most 1 gives three NaNs |
| Colour.ToHex | src/scene.js:18 | `toString(16)` writes hex digits whose value is the number, one digit exactly below 16, two for 16..255 |
| Colour.Hex | src/scene.js:17-20 | the padded hex of 0..255 is exactly two digits with that value; larger values give three or more characters; negatives start with `-` |
| Colour.Channels | src/scene.js:14-15 | a well-formed colour parses to three channels in 0..255 |
| Colour.RgbRoundTrip | src/scene.js:5-28 | parsing `#` + hex(r) + hex(g) + hex(b) gives back [r, g, b] for channels in 0..255 |
| Colour.ChannelBetween | src/scene.js:22-24 | with prob in [0, 1] a blended channel lies between the low and high components; prob 0 gives low, prob 1 gives high |
| Colour.GetColorBetween | src/scene.js:12-28 | `getColor`'s output parses back to its blended channels, each between the low and high colour's |
| Colour.GetColorEnds | src/scene.js:12-28 | probability 0 gives the low colour and 1 the high colour, channel for channel |
| Colour.GetColor | src/scene.js:12-28 | the result starts with `#` and has at least seven characters |
| Geometry.PixelsToPosIntendedInverse | src/scene.js:221-231 | the corrected pixel-to-world conversion and `posToPixels` undo each other in both directions |
| Geometry.PosPixelsRoundTripX | src/scene.js:221-231 | `pixelsToPos(posToPixels(x, y))` returns `x` on the horizontal axis |
| Geometry.PosPixelsRoundTripY | src/scene.js:223-229 | on the vertical axis the round trip shifts `y` by `pixHeight - pixHeight/pixelsPerMeter - 2*origin.y`; it returns `y` exactly when that offset is 0 |
| Geometry.PosPixelsRoundTripYSample | src/scene.js:221-231 | on a 500-pixel canvas the world origin maps to pixel (250, 250); `pixelsToPos` sends that pixel to (0, 500), the corrected conversion to (0, 0) |
| Geometry.PixelsPosRoundTrip | src/scene.js:221-231 | from the pixel side, `posToPixels(pixelsToPos(u, v))` returns `u` but shifts `v` by `ClickShift` (`pixHeight - pixHeight*pixelsPerMeter + 2*origin.y*pixelsPerMeter`) |
| Geometry.IdxRoundTrip | src/scene.js:251-259 | for r >= 0 and 0 <= c < width, `idxToCell(cellToIdx(r, c)) == (r, c)` |
| Geometry.IdxToCellInverse | src/scene.js:251-259 | every non-negative index is `cellToIdx` of the in-range cell `idxToCell` gives |
| Geometry.CellPixelsRoundTrip | src/scene.js:233-243 | `pixelsToCell(cellToPixels(r, c)) == (c, height - r - 1)`: column then flipped row |
| Geometry.PosToCellContains | src/scene.js:245-249 | `posToCell` gives the (row, column) whose square of side `metersPerCell`, counted from the origin, contains the point |
| Scene.CellProbability | src/scene.js:300 | `(cell + 127) / 255` lies in [0, 1] exactly for cells in -127..128; it is not clamped |
| Scene.MinByteBelowZero | src/scene.js:300 | the signed byte -128 gets a probability below 0 |
| Scene.ClearBackgroundBetween | src/scene.js:261-264 | the background `clear` paints reads back, through `colourStringToRGB`, as channels each between the low and the high colour's |
| Scene.PaintInGrid | src/scene.js:300-304 | the rectangle drawn for an in-grid cell lies inside the grid's pixel area, and `pixelsToCell` of its corner names that cell as (column, flipped row) |
| Scene.CellCornerInGrid | src/scene.js:233-237 | the pixel corner of an in-grid cell leaves room for one whole cell inside `[0, width*pixPerCell] x [0, height*pixPerCell]` |
| Scene.ChangedMembers | src/scene.js:295-306 | the traversal lists a cell exactly when it lies in the grid and its value differs from the compared buffer's; it carries its new value |
| Scene.ChangedDistinct | src/scene.js:295-306 | the traversal never lists a grid position twice |
| Scene.ChangedCoversIndices | src/scene.js:323-334 | with a buffer of `width*height` values, every differing index is drawn through exactly one listed cell, the one `idxToCell` names |
| Scene.ChangedSelf | src/scene.js:323-334 | comparing a buffer with itself lists nothing |
| Scene.ChangedFromZeros | src/scene.js:295-306 | against the all-zero buffer exactly the non-zero in-grid cells are listed |
| Scene.UpdateSameBufferDrawsNothing | src/scene.js:323-336 | re-sending the stored buffer draws no rectangle |
| Scene.SweepOps | src/scene.js:295-306 | the nested loops (column outer, row inner) produce one rectangle per listed cell, in traversal order |
| Scene.ColumnOps | src/scene.js:296-305 | the inner loop produces the rectangles of one column, bottom row first |
| Scene.MBotScene.constructor | src/scene.js:31-48 | an empty 0 x 0 map of 0.05 m cells drawn 5 pixels wide, 100 pixels per metre, empty buffer and log |
| Scene.MBotScene.SetMapHeaderData | src/scene.js:196-206 | sets the header; afterwards `pixPerCell * width == pixWidth` and `pixelsPerMeter * metersPerCell == pixPerCell`, and the robot sprite is resized from the new scale |
| Scene.MBotScene.Clear | src/scene.js:261-270 | empties the buffer and appends the clear operations to the log |
| Scene.MBotScene.DrawCells | src/scene.js:287-309 | a wrong-length buffer changes nothing; otherwise clear, then one rectangle (with the alpha) per non-zero cell, and the buffer is kept |
| Scene.MBotScene.UpdateCells | src/scene.js:311-336 | a wrong-length buffer changes nothing; a new length redraws from scratch; otherwise one rectangle (no alpha) per changed cell; on success the buffer is kept and `getMapData` (lines 208-219) returns it with the header |
| Viewport.ToLocalInverse | src/scene.js:138 | `toLocal` and the container's placement undo each other |
| Viewport.ZoomFactor | src/scene.js:137-142 | scrolling down (`deltaY > 0`) shrinks by 1/1.1, anything else grows by 1.1 |
| Viewport.MinScale | src/scene.js:140 | the minimum scale fits the map's pixel width within both canvas sides |
| Viewport.ZoomedScale | src/scene.js:143-159 | after the zoom step both axes share one scale of at least the minimum; the clamp branch sets exactly the minimum with pivot and position at 0, and happens exactly when a scaled axis does not exceed the minimum |
| Viewport.ZoomedKeepsPointer | src/scene.js:146-152 | an unclamped zoom keeps the map point under the cursor in place |
| Viewport.Constrained | src/scene.js:164-194 | constraining never changes the scale |
| Viewport.ConstrainedLeftEdge | src/scene.js:168-171 | space left of the map puts the map's left edge back on the canvas's |
| Viewport.ConstrainedRightEdge | src/scene.js:172-180 | when the map is at least canvas-wide, the uncapped branch puts the canvas's right edge exactly on the map's |
| Viewport.ConstrainedBottomEdge | src/scene.js:185-193 | the same for the bottom edge, given equal scales, since this branch uses the x scale |
| Viewport.Dragged | src/scene.js:117-128 | a drag step moves the position by the cursor displacement and nothing else |
| Viewport.DragTotal | src/scene.js:117-128 | a whole drag moves the container by the last cursor position minus the first |
| Viewport.ZoomThenConstrainScale | src/scene.js:135-162 | after `zoomHandler` both scales are equal and at least the minimum |
| Viewport.SceneContainer.constructor | src/scene.js:47 | no drag in progress, identity transform |
| Viewport.SceneContainer.PointerDown | src/scene.js:101-104 | records the drag start and moves nothing |
| Viewport.SceneContainer.PointerMove | src/scene.js:117-129 | without a drag nothing changes; during one the container follows the cursor and the drag restarts there |
| Viewport.SceneContainer.PointerUp | src/scene.js:106-115 | clears the drag and constrains |
| Viewport.SceneContainer.Constrain | src/scene.js:164-194 | the new transform is `Constrained` of the old |
| Viewport.SceneContainer.ZoomStep | src/scene.js:138-159 | the new transform is `Zoomed` of the old |
| Viewport.SceneContainer.Zoom | src/scene.js:135-162 | zoom, then constrain |
| Util.NormalizeAngleRange | src/util.js:2-7 | the result lies in (-pi, pi] |
| Util.NormalizeAngleTurns | src/util.js:2-7 | the result differs from the input by a whole number of turns of 2 pi |
| Util.NormalizeAngleFixed | src/util.js:2-7 | angles in (-pi, pi] are returned unchanged |
| Util.NormalizeAngleIdempotent | src/util.js:2-7 | normalising twice equals normalising once |
| Util.Includes | src/util.js:26 | `includes` holds exactly for members |
| Util.AllIncludedIsSubset | src/util.js:25-35 | each scan succeeds exactly when every channel of one list occurs in the other |
| Util.IsDeepEqualReflexive | src/util.js:10-12 | identical operands are equal |
| Util.IsDeepEqualMissing | src/util.js:14-16 | a null/undefined operand equals only the identical value |
| Util.IsDeepEqualLengths | src/util.js:18-20 | distinct arrays of different lengths are unequal |
| Util.IsDeepEqualSets | src/util.js:22-37 | distinct arrays of equal length are equal exactly when their channel sets are equal |
| Util.IsDeepEqualSymmetric | src/util.js:9-38 | the comparison is symmetric |
| Util.IsDeepEqualIgnoresMultiplicity | src/util.js:22-37 | `[a, a, b]` and `[a, b, b]` compare equal although their multisets differ |
| DriveControls.IndexOf | src/driveControls.jsx:68 | `controlMap[key]` finds the first entry with that key, or reports that none has it |
| DriveControls.KeyDownMapped | src/driveControls.jsx:68-76 | a mapped key down marks only its entry held and steps its counter toward its limit unless already there; the other counters are unchanged |
| DriveControls.KeyDownUnmapped | src/driveControls.jsx:68-76 | an unmapped key down changes nothing |
| DriveControls.KeyDownInRange | src/driveControls.jsx:70-75 | key downs keep the counters in [-1, 1] |
| DriveControls.KeyUpMapped | src/driveControls.jsx:89-97 | a mapped key up releases only its entry and steps its counter back with no limit (if something stays held) |
| DriveControls.KeyUpUnmapped | src/driveControls.jsx:89-104 | an unmapped key up only runs the failsafe |
| DriveControls.KeyUpFailsafe | src/driveControls.jsx:99-104 | after a key up with nothing held, x = y = t = 0 |
| DriveControls.KeyEventsKeepLayout | src/driveControls.jsx:64-112 | key events never change the keys or functions of the entries |
| DriveControls.PressReleaseFromRest | src/driveControls.jsx:64-112 | pressing and releasing one key from rest returns to rest |
| DriveControls.KeyUpLeavesRange | src/driveControls.jsx:91-96 | hold s, w, auto-repeat w, release s: the forward counter reaches 2 |
| DriveControls.DriveControlPanel.constructor | src/driveControls.jsx:16-35 | speed 50, the six default entries released, counters at 0 |
| DriveControls.DriveControlPanel.SetSpeed | src/driveControls.jsx:60-62 | sets the speed only |
| DriveControls.DriveControlPanel.Drive | src/driveControls.jsx:119-121 | sends one `move` with the given speeds |
| DriveControls.DriveControlPanel.Stop | src/driveControls.jsx:114-117 | sends one `stop` |
| DriveControls.JoystickMoveBounded | src/driveControls.jsx:48-51 | joystick reports within [-100, 100] become speeds within `speed/100` and no turn; up drives forward, right gives a negative `vy` |
| DriveControls.DriveControlPanel.OnJoystick | src/driveControls.jsx:48-51 | the joystick callback sends one `move` of `y*speed/10000`, `-x*speed/10000`, 0 |
| DriveControls.DriveControlPanel.HandleKeyDown | src/driveControls.jsx:64-84 | off driving mode nothing changes or is sent; otherwise the key-down step and one `move` of `x*speed/100`, `y*speed/100`, `angVel*speed*t/100` |
| DriveControls.DriveControlPanel.HandleKeyUp | src/driveControls.jsx:86-112 | off driving mode nothing changes or is sent; otherwise the key-up step, the failsafe scan over all entries, and one `move` |
| App.Int8 | src/app.jsx:366 | a byte read through `Int8Array` lies in -128..127 and is congruent to the byte mod 256 |
| App.DecodeCells | src/app.jsx:364-367 | number arrays pass through; byte buffers become signed bytes of the same length |
| App.DecodedBytesProbability | src/app.jsx:366 | decoded bytes get a probability in [0, 1] except -128 |
| App.StartStop | src/app.jsx:437-450 | starting and stopping are idempotent, leave polling on/off respectively, zero the count when they act, and keep the mode |
| App.LocalizationToggleEffect | src/app.jsx:224-243 | IDLE goes to LOCALIZATION_ONLY polling; anything else to IDLE not polling; the one reset sent names the new mode |
| App.MappingToggleEffect | src/app.jsx:200-222 | a reset is sent exactly when the mode changes and names the new mode; FULL_SLAM goes to LOCALIZATION_ONLY not polling; FULL_SLAM is only entered polling; IDLE and a declined confirm change nothing |
| App.StatusUpdatePolling | src/app.jsx:332-347 | the reported mode is adopted; an unchanged mode changes nothing; otherwise polling is on exactly in FULL_SLAM |
| App.ResponsesKeepStaleBound | src/app.jsx:454-475 | every response keeps `0 <= staleMapCount <= STALE_MAP_COUNT`; a map zeroes it |
| App.MapResponsePolling | src/app.jsx:467-475 | a map stops polling exactly in LOCALIZATION_ONLY and keeps the mode |
| App.EmptyResponsesCount | src/app.jsx:456-465 | up to the limit, empty replies only increment the count |
| App.StaleMapFallsBackToIdle | src/app.jsx:456-465 | from 0, `STALE_MAP_COUNT` empty replies count up; one more gives IDLE with count 0, and polling is left as it was |
| App.MBotApp.constructor | src/app.jsx:105-154 | IDLE, not polling, count 0, no map, no goal or click, nothing sent |
| App.MBotApp.StartRequestInterval | src/app.jsx:437-443 | the polling state becomes `Start` of the old one; the loaded flag, the map file, goal and click fields (`Ui`) and the sent messages are unchanged |
| App.MBotApp.StopRequestInterval | src/app.jsx:445-450 | the polling state becomes `Stop` of the old one; the loaded flag, `Ui` and the sent messages are unchanged |
| App.MBotApp.ResetMapData | src/app.jsx:383-392 | the scene is cleared (`SceneCleared`: empty buffer, header and robot size kept, clear operations logged); no map loaded, no map file, no goal, goal valid, the last click kept; polling and sent messages unchanged |
| App.MBotApp.OnLocalizationMode | src/app.jsx:224-243 | the polling state follows `LocalizationToggle` and one reset is sent; the loaded flag and `Ui` are unchanged |
| App.MBotApp.OnMappingMode | src/app.jsx:200-222 | follows `MappingToggle` and sends `MappingResets`; a confirmed switch from LOCALIZATION_ONLY clears the scene and resets the map file and goal; otherwise the loaded flag, `Ui` and the scene are unchanged |
| App.MBotApp.OnResetMap | src/app.jsx:245-254 | only a confirmed reset in FULL_SLAM clears the scene, resets the map file and goal and sends a FULL_SLAM reset; otherwise nothing changes; the mode and polling never change |
| App.MBotApp.HandleSLAMStatus | src/app.jsx:332-347 | follows `StatusUpdate`; the map file is replaced only when the mode changes, the goal and click fields never |
| App.MBotApp.UpdateMap | src/app.jsx:363-381 | the map is loaded exactly when the cells are non-empty; the scene then holds the message's header and scales and, for a buffer of the header's size, those cells and the rectangles `updateCells` draws for them (`MapApplied`); an empty grid leaves the scene alone; `Ui` is unchanged |
| App.MBotApp.HandleMap | src/app.jsx:289-292 | while polling, a pushed map has `updateMap`'s effect (`MapApplied`); otherwise it is ignored; `Ui` is unchanged |
| App.MBotApp.RequestMap | src/app.jsx:452-454 | sends one map request if the socket is up, else nothing; the loaded flag and `Ui` are unchanged |
| App.MBotApp.OnMapResponse | src/app.jsx:454-476 | an empty reply follows `EmptyResponse` and, past the limit, has `resetMapData`'s effect; a map has `updateMap`'s effect (`MapApplied`) and follows `MapResponse` |
| App.MBotApp.HandleMapClick | src/app.jsx:272-279 | ignored until a map is loaded; then records the clicked cell and `pixelsToPos` of the pixel as written, which `posToPixels` maps back to `u` but to `v` shifted by `ClickShift` |
| App.MBotApp.HandleMapClickCorrected | src/app.jsx:272-279 | the handler with the corrected conversion: the recorded position maps back to the clicked pixel |
| Joy.CardinalDirectionLetters | src/joy.jsx:128-153 | one vertical letter (N above the band, S below, C within) then at most one of W (left of the band) or E (right of it) |
| Joy.CardinalDirectionCentre | src/joy.jsx:128-153 | the centre reads "C" |
| Joy.CardinalDirectionCentreBand | src/joy.jsx:146-151 | straight left and right of the centre read "CW" and "CE" |
| Joy.KnobPositionInside | src/joy.jsx:115-116 | when 2·radius <= size the knob lies in [radius, size - radius], and a position already there is kept |
| Joy.RadiiQuarter | src/joy.jsx:233-239 | internal radius w/4 - 5, maximum move w/4, external radius w/4 + 25; the knob fits exactly when w >= -20 |
| Joy.StatusScale | src/joy.jsx:155-165 | the reported offsets lie in [-100, 100] exactly within `maxMoveStick` of the centre, so a drag past the ring reports more; right and up are positive |
| Joy.StatusCentre | src/joy.jsx:155-165 | the centre reports (0, 0) and "C" |
| Joy.Joystick.constructor | src/joy.jsx:217-239 | the size parameters are kept, the set-up effect runs (canvas sized, knob centred, radii from the width), released, no reports |
| Joy.Joystick.Knob | src/joy.jsx:268-274 | the knob is drawn horizontally within the canvas by its radius (vertically too when it fits) |
| Joy.Joystick.SetUp | src/joy.jsx:217-266 | the set-up effect sizes the canvas from the parameters or the container, centres the knob and sets the radii; `pressed` and the reports are unchanged |
| Joy.Joystick.Press | src/joy.jsx:167-169 | pressed, no report; a press that changes `pressed` re-runs the set-up effect (its dependencies at lines 263-266 include the move handlers, which depend on `pressed`), so the canvas is re-sized and the knob centred; otherwise nothing else changes (also `onMouseDown`, lines 194-196) |
| Joy.Joystick.MouseMove | src/joy.jsx:198-207 | ignored unless pressed; otherwise the knob follows the cursor and one active report is made |
| Joy.Joystick.TouchMove | src/joy.jsx:171-183 | as the mouse move, and only for a touch on the canvas |
| Joy.Joystick.Release | src/joy.jsx:185-192 | released; one inactive report of the old centre, (0, 0), "C"; a release that changes `pressed` re-runs the set-up effect, so the knob ends centred whatever `autoReturnToCenter` says; a release while already released re-centres it exactly when auto-return is on (also `onMouseUp`, lines 209-215) |
| Joy.Joystick.UpdateStickStatus | src/joy.jsx:155-165 | appends one report for the given point |

## Left out

- Pixi.js objects: the application, the sprite and texture loading, and the graphics fill/stroke calls. Rectangles and layer clears are recorded in `Scene.MBotScene.drawLog`. A rectangle's fill is recorded as the arguments of its `getColor` call (`Scene.Shade`); `Scene.FillColour` gives the colour string.
- `toLocal` is taken to be the affine map of an unrotated container on an identity stage.
- `drawLasers`, `drawParticles`, `drawPath`, `updateRobot` and `toggleRobotView`. They use floating-point trigonometry and library drawing.
- Click/drag disambiguation and click-to-cell selection inside the scene. The code assigns a click callback but never calls it, so there is nothing to model. For the same reason `handleMapClick` (modelled as `App.MBotApp.HandleMapClick`) is reachable only through `clickCallback` (src/app.jsx:163), which src/scene.js never calls.
- IEEE-754 rounding, NaN and Infinity. All arithmetic is exact. π is a parameter. `toFixed` rounding of joystick reports is not modelled.
- Colour.ColourStringToRGB: malformed colour strings give NaN channels (`None`). `parseInt` skipping leading whitespace is not modelled.
- The map origin is `undefined` until the first header arrives. The model starts at (0, 0).
- Scene.MBotScene.SetMapHeaderData: requires a non-zero width and cell size. The code divides by them and would store Infinity or NaN.
- Scene.MBotScene.SetMapHeaderData: the default arguments (`m_per_cell = 0.05`, `origin = [0, 0]`) are not modelled; every map message carries both fields (`App.MapMsg`), so a message missing them is not represented.
- App.MBotApp.UpdateMap: requires a non-empty grid to have a non-zero width and cell size (`App.Scalable`), for the same reason. `App.MBotApp.HandleMap` and `App.MBotApp.OnMapResponse` pass the requirement on.
- Joy.Joystick.constructor: requires a positive canvas width, since the reports divide by `maxMoveStick = width/4`. `Joy.Joystick.SetUp` requires the same of the container's size, and so do `Joy.Joystick.Press` and `Joy.Joystick.Release` on the calls that re-run it (a press while released, a release while pressed).
- Joy.Joystick.SetUp: the model takes the `callback` prop to keep its identity across renders, so the set-up effect re-runs only when `pressed` changes. In the code `callback` is a dependency of `updateStickStatus` (src/joy.jsx:165), and through the move and up handlers of the effect (lines 263-266). A component given no callback gets a fresh default `() => {}` (line 73) on every render, and a parent passing an inline arrow function gives a fresh one whenever it re-renders. Either way the effect re-runs and re-centres the knob, for example after the render that follows each `setMoved` of a move. `Joy.Joystick.MouseMove` and `Joy.Joystick.TouchMove` leave the knob at the cursor only under this assumption.
- Joy.Joystick.Press: the re-run's removal and re-registration of the listeners, and the canvas redraw, are not modelled; only the state it sets is.
- The drive panel imports `./joy.js` (src/driveControls.jsx:9) and mounts that joystick with the positional `(container, parameters, callback)` constructor; src/joy.js is not part of this model. The React component of src/joy.jsx is modelled on its own, and `DriveControls.DriveControlPanel.OnJoystick` models the panel's callback for whichever joystick calls it.
- DriveControls.JoystickMoveBounded: requires reports within [-100, 100]. The code does not guarantee this: moves are listened for on the whole document and the reported offsets are not clamped, so a drag past the ring reports beyond ±100 (`Joy.StatusScale`) and drives faster than `speed/100`.
- The unused `pixPerMeter` computed in `updateMap` (src/app.jsx:370) has no effect and is not modelled.
- The socket, timers, file upload and download, and `confirm()`. Sent messages become `sent` lists. Timer ticks are calls to `RequestMap`, and replies are calls to `OnMapResponse`. Confirmation is a boolean input. Whether the socket is connected is a parameter.
- React: `setState` is modelled as immediate assignment. Hook closures are assumed to see the current `pressed`. Rendering, the sidebar and display toggles, the status messages and the drive panel's markup are UI and not modelled. The 100 ms delay before the joystick is mounted is not modelled.
- Joystick canvas drawing (arcs, gradients) and DOM listener registration. `Joy.Joystick.Knob` gives the drawn knob centre.
- DriveControls.DriveControlPanel.SetSpeed: the code stores the input's string value, which JavaScript later coerces. The model stores a number.
- DriveControls.IndexOf: keys inherited by every JavaScript object (such as `toString`) count as unmapped. In the code they are truthy but have no `fn`, so they step nothing.
- Scene.CellProbability is not clamped to [0, 1], as in the code; a signed byte of -128 gives a probability below 0 (`Scene.MinByteBelowZero`).
- Viewport.ZoomFactor: a wheel event with `deltaY == 0` zooms in, as the code's `deltaY > 0` test does.

## Findings

| source | as written | input that shows it | evidently intended | confidence | as-written member | corrected member |
|---|---|---|---|---|---|---|
| src/scene.js:227-231 | `pixelsToPos` computes `y = pixHeight - v/pixelsPerMeter - origin.y`, which does not undo `posToPixels` (line 223) | a 500-pixel canvas, 10 x 10 cells of 0.1 m, origin (-0.5, -0.5): the world origin maps to pixel (250, 250), and `pixelsToPos(250, 250)` is (0, 500) | `y = (pixHeight - v)/pixelsPerMeter + origin.y`, the inverse of `posToPixels` | high, not executed | Geometry.PosPixelsRoundTripYSample | Geometry.PixelsToPosIntendedInverse |
