/**
 * The SLAM-mode and map-polling logic of `MBotApp` (src/app.jsx): which mode
 * the robot's SLAM runs in, whether the page is polling the robot for the
 * map, how many empty map responses have arrived in a row, and the resets and
 * map requests the page sends on its socket.
 */
module App {
  import opened Common
  import opened Geometry
  import opened Scene

  /** `config.slam_mode`: the three modes the page acts on, or any other value the robot reports. */
  datatype SlamMode = Idle | LocalizationOnly | FullSlam | Unknown(code: int)

  /** A message sent on the socket: `reset` (with `retain_pose` when given) or `request_map`. */
  datatype Emit = Reset(mode: SlamMode, retainPose: Option<bool>) | MapRequest

  /** An unsigned byte of a binary cell buffer. */
  newtype Byte = b: int | 0 <= b < 256

  /** The cells of a map message: a plain number array, or an `ArrayBuffer` read as signed bytes. */
  datatype CellData = Numbers(values: seq<int>) | Bytes(bytes: seq<Byte>)

  /** A non-empty map message: the cells and the header `setMapHeaderData` takes. */
  datatype MapMsg = MapMsg(cells: CellData, width: int, height: int, metersPerCell: real, origin: (real, real))

  /** One byte seen through an `Int8Array`. */
  function Int8(b: Byte): (v: int)
    ensures -128 <= v <= 127
    ensures (v + 256) % 256 == b as int
  {
    if b < 128 then b as int else b as int - 256
  }

  /** `new_cells`: the cell values `updateMap` hands to the scene. */
  function DecodeCells(cells: CellData): (r: seq<int>)
    ensures cells.Numbers? ==> r == cells.values
    ensures cells.Bytes? ==> (|r| == |cells.bytes| &&
      forall i | 0 <= i < |r| :: -128 <= r[i] <= 127 && (r[i] + 256) % 256 == cells.bytes[i] as int)
  {
    match cells
    case Numbers(values) => values
    case Bytes(bytes) => seq(|bytes|, i requires 0 <= i < |bytes| => Int8(bytes[i]))
  }

  /** Signed bytes decode to probabilities in [0, 1], except -128, which falls below 0. */
  lemma DecodedBytesProbability(bytes: seq<Byte>, i: int)
    requires 0 <= i < |bytes|
    ensures var v := DecodeCells(Bytes(bytes))[i];
      0.0 <= CellProbability(v) <= 1.0 <==> v != -128
  {
  }

  /** A map message whose non-empty grid can be scaled to the canvas. */
  predicate Scalable(msg: MapMsg) {
    |DecodeCells(msg.cells)| > 0 ==> msg.width != 0 && msg.metersPerCell != 0.0
  }

  /** The polling part of the page's state: the SLAM mode, whether a map request interval runs, and `staleMapCount`. */
  datatype Polling = Polling(mode: SlamMode, active: bool, staleMapCount: int)

  /** `startRequestInterval`: no effect while polling, otherwise start with a fresh count. */
  function Start(p: Polling): Polling {
    if p.active then p else p.(active := true, staleMapCount := 0)
  }

  /** `stopRequestInterval`: no effect while not polling, otherwise stop and zero the count. */
  function Stop(p: Polling): Polling {
    if !p.active then p else p.(active := false, staleMapCount := 0)
  }

  /** `onLocalizationMode`: IDLE starts localisation and polling; any other mode returns to IDLE and stops polling. */
  function LocalizationToggle(p: Polling): Polling {
    if p.mode == Idle then Start(p).(mode := LocalizationOnly) else Stop(p).(mode := Idle)
  }

  /** The `reset` that `onLocalizationMode` sends. */
  function LocalizationReset(mode: SlamMode): Emit {
    if mode == Idle then Reset(LocalizationOnly, Some(false)) else Reset(Idle, None)
  }

  /**
   * `onMappingMode`: FULL_SLAM falls back to localisation and stops polling;
   * LOCALIZATION_ONLY starts mapping and polling if the user confirms.
   */
  function MappingToggle(p: Polling, confirmed: bool): Polling {
    if p.mode == FullSlam then Stop(p).(mode := LocalizationOnly)
    else if p.mode == LocalizationOnly && confirmed then Start(p).(mode := FullSlam)
    else p
  }

  /** The `reset`s that `onMappingMode` sends. */
  function MappingResets(mode: SlamMode, confirmed: bool): seq<Emit> {
    if mode == FullSlam then [Reset(LocalizationOnly, Some(true))]
    else if mode == LocalizationOnly && confirmed then [Reset(FullSlam, None)]
    else []
  }

  /** `handleSLAMStatus`: adopt a changed mode, polling exactly in FULL_SLAM. */
  function StatusUpdate(p: Polling, mode: SlamMode): Polling {
    if mode == p.mode then p
    else if mode != FullSlam then Stop(p).(mode := mode)
    else Start(p).(mode := mode)
  }

  /** An empty map response: count it; past the limit, zero the count and fall back to IDLE. */
  function EmptyResponse(p: Polling, staleLimit: int): Polling {
    if p.staleMapCount + 1 > staleLimit then p.(staleMapCount := 0, mode := Idle)
    else p.(staleMapCount := p.staleMapCount + 1)
  }

  /** A map response: zero the count; in LOCALIZATION_ONLY one map is enough, so stop polling. */
  function MapResponse(p: Polling): Polling {
    var q := p.(staleMapCount := 0);
    if q.mode == LocalizationOnly then Stop(q) else q
  }

  /** `n` empty responses in a row. */
  function EmptyResponses(p: Polling, staleLimit: int, n: nat): Polling {
    if n == 0 then p else EmptyResponse(EmptyResponses(p, staleLimit, n - 1), staleLimit)
  }

  /** Starting and stopping are idempotent, and each leaves the flag it names with a zero count when it acts. */
  lemma StartStop(p: Polling)
    ensures Start(Start(p)) == Start(p) && Start(p).active
    ensures Stop(Stop(p)) == Stop(p) && !Stop(p).active
    ensures !p.active ==> Start(p).staleMapCount == 0
    ensures p.active ==> Stop(p).staleMapCount == 0
    ensures Start(p).mode == p.mode && Stop(p).mode == p.mode
  {
  }

  /** `onLocalizationMode` moves between IDLE and LOCALIZATION_ONLY, polling exactly when it leaves IDLE, and its reset names the new mode. */
  lemma LocalizationToggleEffect(p: Polling)
    ensures var q := LocalizationToggle(p);
      (p.mode == Idle ==> q.mode == LocalizationOnly && q.active) &&
      (p.mode != Idle ==> q.mode == Idle && !q.active) &&
      LocalizationReset(p.mode).mode == q.mode
  {
  }

  /**
   * `onMappingMode` sends a reset exactly when it changes the mode, and that
   * reset names the new mode; mapping always ends with polling on, leaving it
   * with polling off.
   */
  lemma MappingToggleEffect(p: Polling, confirmed: bool)
    ensures var q := MappingToggle(p, confirmed); var r := MappingResets(p.mode, confirmed);
      (r == [] <==> q == p) &&
      (r != [] ==> |r| == 1 && r[0].mode == q.mode) &&
      (p.mode == FullSlam ==> q.mode == LocalizationOnly && !q.active) &&
      (q.mode == FullSlam ==> q.active) &&
      (p.mode != FullSlam && p.mode != LocalizationOnly ==> q == p) &&
      (!confirmed && p.mode != FullSlam ==> q == p)
  {
  }

  /** After a status report the page polls exactly when the reported mode is FULL_SLAM, unless the mode did not change. */
  lemma StatusUpdatePolling(p: Polling, mode: SlamMode)
    ensures StatusUpdate(p, mode).mode == mode
    ensures mode == p.mode ==> StatusUpdate(p, mode) == p
    ensures mode != p.mode ==> (StatusUpdate(p, mode).active <==> mode == FullSlam)
  {
  }

  /** Responses keep `0 <= staleMapCount <= staleLimit`. */
  lemma ResponsesKeepStaleBound(p: Polling, staleLimit: int)
    requires 0 <= p.staleMapCount <= staleLimit
    ensures 0 <= EmptyResponse(p, staleLimit).staleMapCount <= staleLimit
    ensures MapResponse(p).staleMapCount == 0
  {
  }

  /** A map response stops polling exactly in LOCALIZATION_ONLY and never changes the mode. */
  lemma MapResponsePolling(p: Polling)
    ensures MapResponse(p).active <==> p.active && p.mode != LocalizationOnly
    ensures MapResponse(p).mode == p.mode
  {
  }

  /** Up to the limit, empty responses only count. */
  lemma {:induction false} EmptyResponsesCount(p: Polling, staleLimit: int, n: nat)
    requires 0 <= p.staleMapCount && p.staleMapCount + n <= staleLimit
    ensures EmptyResponses(p, staleLimit, n) == p.(staleMapCount := p.staleMapCount + n)
  {
    if n > 0 {
      EmptyResponsesCount(p, staleLimit, n - 1);
    }
  }

  /**
   * From a zero count, the first `staleLimit` empty responses only count; the
   * next one sends the page back to IDLE with a zero count, and polling goes on.
   */
  lemma StaleMapFallsBackToIdle(p: Polling, staleLimit: nat)
    requires p.staleMapCount == 0
    ensures EmptyResponses(p, staleLimit, staleLimit) == p.(staleMapCount := staleLimit)
    ensures EmptyResponses(p, staleLimit, staleLimit + 1) == p.(staleMapCount := 0, mode := Idle)
  {
    EmptyResponsesCount(p, staleLimit, staleLimit);
  }

  /** The page state that only resets and map clicks touch: the map file, the goal and the last click. */
  datatype UiState = UiState(
    mapfile: Option<string>,
    goalCell: Option<(int, int)>,
    goalValid: bool,
    clickedCell: Option<(int, int)>,
    posClickedCell: Option<(real, real)>)

  /** What `scene.clear()` leaves behind: no buffer, the header and the robot's size kept, the clear operations logged. */
  twostate predicate SceneCleared(scene: MBotScene)
    reads scene
  {
    scene.Valid() && scene.mapCells == [] &&
    scene.Frame() == old(scene.Frame()) && scene.robotPixSize == old(scene.robotPixSize) &&
    scene.drawLog == old(scene.drawLog) + ClearOps(scene.pixWidth, scene.pixHeight, scene.mapColourLow, scene.mapColourHigh)
  }

  /**
   * What `updateMap(msg)` does to the scene: an empty grid leaves it alone;
   * a non-empty one sets the header and both scales, and a buffer of the
   * header's size is drawn by `updateCells` (in full when its length differs
   * from the stored one, otherwise only the changed cells) and kept.
   */
  twostate predicate MapApplied(scene: MBotScene, msg: MapMsg)
    reads scene
  {
    var cells := DecodeCells(msg.cells);
    var low, high := scene.mapColourLow, scene.mapColourHigh;
    (|cells| == 0 ==> unchanged(scene)) &&
    (|cells| > 0 ==>
      scene.Valid() &&
      scene.width == msg.width && scene.height == msg.height &&
      scene.metersPerCell == msg.metersPerCell && scene.origin == msg.origin &&
      scene.pixPerCell * msg.width as real == scene.pixWidth &&
      scene.pixelsPerMeter * msg.metersPerCell == scene.pixPerCell &&
      scene.robotPixSize == scene.robotSize * scene.pixelsPerMeter) &&
    (|cells| > 0 && |cells| == msg.width * msg.height ==>
      scene.GetMapData() == Some(MapData(cells, msg.width, msg.height, msg.origin, msg.metersPerCell)) &&
      scene.drawLog == old(scene.drawLog) +
        (if |cells| != |old(scene.mapCells)|
         then ClearOps(scene.pixWidth, scene.pixHeight, low, high) +
              Rects(scene.Frame(), Changed(scene.Frame(), cells, Zeros(|cells|)), low, high, Some("ff"))
         else Rects(scene.Frame(), Changed(scene.Frame(), cells, old(scene.mapCells)), low, high, None))) &&
    (|cells| > 0 && |cells| != msg.width * msg.height ==>
      scene.mapCells == old(scene.mapCells) && scene.drawLog == old(scene.drawLog))
  }

  /** The page: the scene it draws on, its polling state, the map it shows and the clicks on it, and what it has sent. */
  class MBotApp {
    const scene: MBotScene
    /** `config.STALE_MAP_COUNT`. */
    const staleLimit: int

    var slamMode: SlamMode
    var polling: bool
    var staleMapCount: int
    var mapLoaded: bool
    var mapfile: Option<string>
    var goalCell: Option<(int, int)>
    var goalValid: bool
    var clickedCell: Option<(int, int)>
    var posClickedCell: Option<(real, real)>
    var sent: seq<Emit>

    predicate Valid()
      reads this, scene
    {
      scene.Valid() && 0 <= staleMapCount <= staleLimit
    }

    function State(): Polling
      reads this
    {
      Polling(slamMode, polling, staleMapCount)
    }

    constructor(scene: MBotScene, staleLimit: nat)
      requires scene.Valid()
      ensures Valid() && this.scene == scene && this.staleLimit == staleLimit
      ensures State() == Polling(Idle, false, 0)
      ensures !mapLoaded && mapfile == None && goalCell == None && goalValid
      ensures clickedCell == None && posClickedCell == None && sent == []
    {
      this.scene := scene;
      this.staleLimit := staleLimit;
      slamMode := Idle;
      polling := false;
      staleMapCount := 0;
      mapLoaded := false;
      mapfile := None;
      goalCell := None;
      goalValid := true;
      clickedCell := None;
      posClickedCell := None;
      sent := [];
    }

    function Ui(): (ui: UiState)
      reads this
      ensures ui.mapfile == mapfile && ui.goalCell == goalCell && ui.goalValid == goalValid
      ensures ui.clickedCell == clickedCell && ui.posClickedCell == posClickedCell
    {
      UiState(mapfile, goalCell, goalValid, clickedCell, posClickedCell)
    }

    method StartRequestInterval()
      requires Valid()
      modifies this
      ensures Valid() && State() == Start(old(State()))
      ensures mapLoaded == old(mapLoaded) && Ui() == old(Ui()) && sent == old(sent)
    {
      if polling {
        return;
      }
      staleMapCount := 0;
      polling := true;
    }

    method StopRequestInterval()
      requires Valid()
      modifies this
      ensures Valid() && State() == Stop(old(State()))
      ensures mapLoaded == old(mapLoaded) && Ui() == old(Ui()) && sent == old(sent)
    {
      if !polling {
        return;
      }
      polling := false;
      staleMapCount := 0;
    }

    /** `resetMapData`: clear the scene and forget the loaded map and the goal. */
    method ResetMapData()
      requires scene.Valid()
      modifies this, scene
      ensures State() == old(State()) && sent == old(sent) && SceneCleared(scene)
      ensures !mapLoaded && Ui() == old(Ui()).(mapfile := None, goalCell := None, goalValid := true)
    {
      scene.Clear();
      mapLoaded := false;
      mapfile := None;
      goalCell := None;
      goalValid := true;
    }

    method OnLocalizationMode()
      requires Valid()
      modifies this
      ensures Valid() && State() == LocalizationToggle(old(State()))
      ensures sent == old(sent) + [LocalizationReset(old(slamMode))]
      ensures mapLoaded == old(mapLoaded) && Ui() == old(Ui())
    {
      if slamMode == Idle {
        sent := sent + [Reset(LocalizationOnly, Some(false))];
        StartRequestInterval();
        slamMode := LocalizationOnly;
      } else {
        sent := sent + [Reset(Idle, None)];
        StopRequestInterval();
        slamMode := Idle;
      }
    }

    /** `onMappingMode`, with the answer to its `confirm` dialog as `confirmed`. */
    method OnMappingMode(confirmed: bool)
      requires Valid()
      modifies this, scene
      ensures Valid() && State() == MappingToggle(old(State()), confirmed)
      ensures sent == old(sent) + MappingResets(old(slamMode), confirmed)
      ensures old(slamMode) == LocalizationOnly && confirmed ==>
        SceneCleared(scene) && !mapLoaded && Ui() == old(Ui()).(mapfile := None, goalCell := None, goalValid := true)
      ensures !(old(slamMode) == LocalizationOnly && confirmed) ==>
        mapLoaded == old(mapLoaded) && Ui() == old(Ui()) && unchanged(scene)
    {
      if slamMode == FullSlam {
        sent := sent + [Reset(LocalizationOnly, Some(true))];
        StopRequestInterval();
        slamMode := LocalizationOnly;
      } else if slamMode == LocalizationOnly {
        if !confirmed {
          return;
        }
        ResetMapData();
        sent := sent + [Reset(FullSlam, None)];
        StartRequestInterval();
        slamMode := FullSlam;
      }
    }

    /** `onResetMap`: only in FULL_SLAM, and only once the user confirms. */
    method OnResetMap(confirmed: bool)
      requires Valid()
      modifies this, scene
      ensures Valid() && State() == old(State())
      ensures old(slamMode) == FullSlam && confirmed ==>
        sent == old(sent) + [Reset(FullSlam, None)] && SceneCleared(scene) &&
        !mapLoaded && Ui() == old(Ui()).(mapfile := None, goalCell := None, goalValid := true)
      ensures !(old(slamMode) == FullSlam && confirmed) ==>
        sent == old(sent) && mapLoaded == old(mapLoaded) && Ui() == old(Ui()) && unchanged(scene)
    {
      if slamMode == FullSlam {
        if !confirmed {
          return;
        }
        ResetMapData();
        sent := sent + [Reset(FullSlam, None)];
      }
    }

    /** `handleSLAMStatus`: a report of the robot's mode and map file. */
    method HandleSLAMStatus(mode: SlamMode, mapPath: Option<string>)
      requires Valid()
      modifies this
      ensures Valid() && State() == StatusUpdate(old(State()), mode)
      ensures Ui() == old(Ui()).(mapfile := if mode == old(slamMode) then old(mapfile) else mapPath)
      ensures mapLoaded == old(mapLoaded) && sent == old(sent)
    {
      if mode != slamMode {
        if mode != FullSlam {
          StopRequestInterval();
        } else {
          StartRequestInterval();
        }
        slamMode := mode;
        mapfile := mapPath;
      }
    }

    /**
     * `updateMap`: a non-empty grid sets the scene's header and updates its
     * cells; the map counts as loaded exactly when the grid is non-empty.
     */
    method UpdateMap(msg: MapMsg)
      requires Valid() && Scalable(msg)
      modifies this, scene
      ensures Valid() && State() == old(State()) && sent == old(sent) && Ui() == old(Ui())
      ensures (mapLoaded <==> |DecodeCells(msg.cells)| > 0) && MapApplied(scene, msg)
    {
      var cells := DecodeCells(msg.cells);
      var loaded := |cells| > 0;
      if loaded {
        scene.SetMapHeaderData(msg.width, msg.height, msg.metersPerCell, msg.origin);
        var _ := scene.UpdateCells(cells, scene.mapColourLow, scene.mapColourHigh, "ff");
      }
      mapLoaded := loaded;
    }

    /** `handleMap`: a pushed map is used only while the page is polling. */
    method HandleMap(msg: MapMsg)
      requires Valid() && Scalable(msg)
      modifies this, scene
      ensures Valid() && State() == old(State()) && sent == old(sent) && Ui() == old(Ui())
      ensures !old(polling) ==> mapLoaded == old(mapLoaded) && unchanged(scene)
      ensures old(polling) ==> (mapLoaded <==> |DecodeCells(msg.cells)| > 0) && MapApplied(scene, msg)
    {
      if polling {
        UpdateMap(msg);
      }
    }

    /** `requestMap`: ask for the map, if the socket is up. */
    method RequestMap(connected: bool)
      requires Valid()
      modifies this
      ensures Valid() && State() == old(State())
      ensures sent == old(sent) + (if connected then [MapRequest] else [])
      ensures mapLoaded == old(mapLoaded) && Ui() == old(Ui())
    {
      if !connected {
        return;
      }
      sent := sent + [MapRequest];
    }

    /**
     * The callback of `request_map`: `None` is the empty reply `{}`. A run of
     * empty replies past the limit resets the map and falls back to IDLE; a
     * map updates the scene and, in LOCALIZATION_ONLY, stops polling.
     */
    method OnMapResponse(response: Option<MapMsg>)
      requires Valid()
      requires response.Some? ==> Scalable(response.value)
      modifies this, scene
      ensures Valid() && sent == old(sent)
      ensures response.None? ==> State() == EmptyResponse(old(State()), staleLimit)
      ensures response.None? && old(staleMapCount) + 1 > staleLimit ==>
        SceneCleared(scene) && !mapLoaded && Ui() == old(Ui()).(mapfile := None, goalCell := None, goalValid := true)
      ensures response.None? && old(staleMapCount) + 1 <= staleLimit ==>
        mapLoaded == old(mapLoaded) && Ui() == old(Ui()) && unchanged(scene)
      ensures response.Some? ==> State() == MapResponse(old(State()))
      ensures response.Some? ==> Ui() == old(Ui()) && MapApplied(scene, response.value)
      ensures response.Some? ==> (mapLoaded <==> |DecodeCells(response.value.cells)| > 0)
    {
      if response.None? {
        staleMapCount := staleMapCount + 1;
        if staleMapCount > staleLimit {
          ResetMapData();
          staleMapCount := 0;
          slamMode := Idle;
        }
        return;
      }
      UpdateMap(response.value);
      staleMapCount := 0;
      if slamMode == LocalizationOnly {
        StopRequestInterval();
      }
    }

    /**
     * `handleMapClick`: ignored until a map is loaded; otherwise records the
     * clicked pixel as a world position through `pixelsToPos` as written, and
     * as (column, flipped row). Converting that position back with
     * `posToPixels` returns `u`, but `v` shifted (see `PixelsPosRoundTrip`).
     */
    method HandleMapClick(u: real, v: real)
      requires Valid()
      modifies this
      ensures Valid() && State() == old(State()) && sent == old(sent) && mapLoaded == old(mapLoaded)
      ensures mapfile == old(mapfile) && goalCell == old(goalCell) && goalValid == old(goalValid)
      ensures !mapLoaded ==> clickedCell == old(clickedCell) && posClickedCell == old(posClickedCell)
      ensures mapLoaded ==> (posClickedCell == Some(PixelsToPos(scene.Frame(), u, v)) &&
        clickedCell == Some(PixelsToCell(scene.Frame(), u, v)))
      ensures mapLoaded ==>
        PosToPixels(scene.Frame(), posClickedCell.value.0, posClickedCell.value.1) == (u, v + ClickShift(scene.Frame()))
    {
      if !mapLoaded {
        return;
      }
      var f := scene.Frame();
      var pos := PixelsToPos(f, u, v);
      PixelsPosRoundTrip(f, u, v);
      var cell := PixelsToCell(scene.Frame(), u, v);
      clickedCell := Some(cell);
      posClickedCell := Some(pos);
    }

    /**
     * `handleMapClick` with the corrected conversion: the recorded position
     * is the world point that `posToPixels` draws at the clicked pixel.
     */
    method HandleMapClickCorrected(u: real, v: real)
      requires Valid()
      modifies this
      ensures Valid() && State() == old(State()) && sent == old(sent) && mapLoaded == old(mapLoaded)
      ensures mapfile == old(mapfile) && goalCell == old(goalCell) && goalValid == old(goalValid)
      ensures !mapLoaded ==> clickedCell == old(clickedCell) && posClickedCell == old(posClickedCell)
      ensures mapLoaded ==> (posClickedCell == Some(PixelsToPosIntended(scene.Frame(), u, v)) &&
        clickedCell == Some(PixelsToCell(scene.Frame(), u, v)))
      ensures mapLoaded ==> PosToPixels(scene.Frame(), posClickedCell.value.0, posClickedCell.value.1) == (u, v)
    {
      if !mapLoaded {
        return;
      }
      var pos := PixelsToPosIntended(scene.Frame(), u, v);
      PixelsToPosIntendedInverse(scene.Frame(), 0.0, 0.0, u, v);
      var cell := PixelsToCell(scene.Frame(), u, v);
      clickedCell := Some(cell);
      posClickedCell := Some(pos);
    }
  }
}
