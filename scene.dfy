/**
 * The occupancy-grid engine of the map display (`MBotScene` in src/scene.js):
 * the map header, the buffer of cell values last drawn (`mapCells`) and the
 * rectangles drawn for it. Every Pixi drawing call is recorded in `drawLog`.
 */
module Scene {
  import opened Common
  import opened Colour
  import opened Geometry

  /**
   * The fill of a rectangle: the arguments of the `getColor` call whose
   * result it is filled with (see `FillColour`).
   */
  datatype Shade = Shade(prob: real, low: string, high: string)

  /** The colour string a shade is drawn with. */
  function FillColour(s: Shade): (colour: string)
    requires WellFormed(s.low) && WellFormed(s.high)
    ensures |colour| >= 7 && colour[0] == '#'
  {
    GetColor(s.prob, s.low, s.high)
  }

  /** A Pixi graphics call: a filled rectangle, or clearing one of the three layers. */
  datatype DrawOp =
    | Rect(u: real, v: real, w: real, h: real, fill: Shade, alpha: Option<string>)
    | ClearGrid
    | ClearPath
    | ClearParticles

  /** The snapshot `getMapData` returns. */
  datatype MapData = MapData(cells: seq<int>, width: int, height: int, origin: (real, real), metersPerCell: real)

  /** The probability a cell value is drawn with, `(cell + 127) / 255`; it is not clamped. */
  function CellProbability(cell: int): (p: real)
    ensures -127 <= cell <= 128 <==> 0.0 <= p <= 1.0
  {
    (cell as real + 127.0) / 255.0
  }

  /** A signed byte can reach -128, whose probability is below 0. */
  lemma MinByteBelowZero()
    ensures CellProbability(-128) < 0.0
  {
  }

  /** The operations `clear` records: the grid is wiped and repainted with the 50% colour, path and particles are wiped. */
  function ClearOps(pixWidth: real, pixHeight: real, low: string, high: string): (ops: seq<DrawOp>)
    ensures |ops| == 4 && ops[0] == ClearGrid && ops[2] == ClearPath && ops[3] == ClearParticles
    ensures ops[1].Rect? && ops[1].u == 0.0 && ops[1].v == 0.0 && ops[1].w == pixWidth && ops[1].h == pixHeight
    ensures ops[1].fill == Shade(0.5, low, high)
  {
    [ClearGrid, Rect(0.0, 0.0, pixWidth, pixHeight, Shade(0.5, low, high), None), ClearPath, ClearParticles]
  }

  /**
   * The background `clear` paints has the 50% colour: read back with
   * `colourStringToRGB` it gives the blended channels, each between the low
   * and the high colour's.
   */
  lemma ClearBackgroundBetween(pixWidth: real, pixHeight: real, low: string, high: string)
    requires WellFormed(low) && WellFormed(high)
    ensures var c := Blend(0.5, low, high);
      ColourStringToRGB(FillColour(ClearOps(pixWidth, pixHeight, low, high)[1].fill)) == [Some(c[0]), Some(c[1]), Some(c[2])] &&
      forall k | 0 <= k < 3 :: Between(c[k], Channels(low)[k], Channels(high)[k])
  {
    assert FillColour(ClearOps(pixWidth, pixHeight, low, high)[1].fill) == GetColor(0.5, low, high);
    GetColorBetween(0.5, low, high);
  }

  /** The buffer `drawCells` compares against: every cell at the background value 0. */
  function Zeros(n: nat): (z: seq<int>)
    ensures |z| == n && forall k | 0 <= k < n :: z[k] == 0
  {
    seq(n, _ => 0)
  }

  /** Cell `idx` exists in both buffers and holds different values. */
  predicate Differs(cells: seq<int>, base: seq<int>, idx: int) {
    0 <= idx < |cells| && idx < |base| && cells[idx] != base[idx]
  }

  /** A grid cell and the value it is drawn with. */
  datatype Cell = Cell(row: int, col: int, value: int)

  /**
   * The cells of column `c`, rows `0 .. r-1` in increasing order, whose value
   * in `cells` differs from the one in `base`.
   */
  function ColumnPrefix(f: Frame, cells: seq<int>, base: seq<int>, c: int, r: int): (cs: seq<Cell>)
    decreases r
  {
    if r <= 0 then []
    else
      var idx := CellToIdx(f, r - 1, c);
      ColumnPrefix(f, cells, base, c, r - 1) +
      (if Differs(cells, base, idx) then [Cell(r - 1, c, cells[idx])] else [])
  }

  /** The differing cells of columns `0 .. c-1`, column by column, each column bottom row first. */
  function Columns(f: Frame, cells: seq<int>, base: seq<int>, c: int): (cs: seq<Cell>)
    decreases c
  {
    if c <= 0 then [] else Columns(f, cells, base, c - 1) + ColumnPrefix(f, cells, base, c - 1, f.height)
  }

  /** The traversal of the whole grid, column outer and row inner, keeping the cells that differ. */
  function Changed(f: Frame, cells: seq<int>, base: seq<int>): (cs: seq<Cell>) {
    Columns(f, cells, base, f.width)
  }

  /** The rectangle drawn for one cell: its pixel corner, one cell wide, shaded by its probability. */
  function Paint(f: Frame, cell: Cell, low: string, high: string, alpha: Option<string>): (op: DrawOp)
    ensures op.Rect? && (op.u, op.v) == CellToPixels(f, cell.row, cell.col) && op.w == op.h == f.pixPerCell
    ensures op.fill == Shade(CellProbability(cell.value), low, high) && op.alpha == alpha
  {
    var (u, v) := CellToPixels(f, cell.row, cell.col);
    Rect(u, v, f.pixPerCell, f.pixPerCell, Shade(CellProbability(cell.value), low, high), alpha)
  }

  /**
   * The rectangle of an in-grid cell lies inside the grid's pixel area, and
   * `pixelsToCell` of its corner names the cell as (column, flipped row).
   */
  lemma PaintInGrid(f: Frame, cell: Cell, low: string, high: string, alpha: Option<string>)
    requires 0.0 < f.pixPerCell && 0 <= cell.row < f.height && 0 <= cell.col < f.width
    ensures var op := Paint(f, cell, low, high, alpha);
      PixelsToCell(f, op.u, op.v) == (cell.col, f.height - cell.row - 1) &&
      0.0 <= op.u && op.u + op.w <= f.width as real * f.pixPerCell &&
      0.0 <= op.v && op.v + op.h <= f.height as real * f.pixPerCell
  {
    CellPixelsRoundTrip(f, cell.row, cell.col);
    CellCornerInGrid(f, cell.row, cell.col);
  }

  /** The pixel corner of an in-grid cell leaves room for one cell inside the grid's pixel area. */
  lemma CellCornerInGrid(f: Frame, r: int, c: int)
    requires 0.0 < f.pixPerCell && 0 <= r < f.height && 0 <= c < f.width
    ensures 0.0 <= CellToPixels(f, r, c).0 && CellToPixels(f, r, c).0 + f.pixPerCell <= f.width as real * f.pixPerCell
    ensures 0.0 <= CellToPixels(f, r, c).1 && CellToPixels(f, r, c).1 + f.pixPerCell <= f.height as real * f.pixPerCell
  {
    var p := f.pixPerCell;
    var x, y := c as real, (f.height - r - 1) as real;
    MulLe(0.0, x, p);
    MulLe(0.0, y, p);
    MulLe(x + 1.0, f.width as real, p);
    MulLe(y + 1.0, f.height as real, p);
    calc {
      CellToPixels(f, r, c).0 + p;
      x * p + p;
      (x + 1.0) * p;
    <= f.width as real * p;
    }
    calc {
      CellToPixels(f, r, c).1 + p;
      y * p + p;
      (y + 1.0) * p;
    <= f.height as real * p;
    }
  }

  /** One rectangle per listed cell, in the order of the list. */
  function Rects(f: Frame, cs: seq<Cell>, low: string, high: string, alpha: Option<string>): (ops: seq<DrawOp>)
    ensures |ops| == |cs|
  {
    if cs == [] then []
    else Rects(f, cs[..|cs| - 1], low, high, alpha) + [Paint(f, cs[|cs| - 1], low, high, alpha)]
  }

  /** One more row of a column adds that row's cell exactly when it differs. */
  lemma ColumnPrefixStep(f: Frame, cells: seq<int>, base: seq<int>, c: int, r: int)
    requires 0 <= r
    ensures ColumnPrefix(f, cells, base, c, r + 1) ==
      ColumnPrefix(f, cells, base, c, r) +
      (if Differs(cells, base, CellToIdx(f, r, c)) then [Cell(r, c, cells[CellToIdx(f, r, c)])] else [])
  {
  }

  /** A differing row adds its rectangle to the column's. */
  lemma PaintStep(f: Frame, cells: seq<int>, base: seq<int>, c: int, r: int, low: string, high: string, alpha: Option<string>)
    requires 0 <= r && Differs(cells, base, CellToIdx(f, r, c))
    ensures Rects(f, ColumnPrefix(f, cells, base, c, r + 1), low, high, alpha) ==
            Rects(f, ColumnPrefix(f, cells, base, c, r), low, high, alpha) +
            [Paint(f, Cell(r, c, cells[CellToIdx(f, r, c)]), low, high, alpha)]
  {
    ColumnPrefixStep(f, cells, base, c, r);
    RectsSnoc(f, ColumnPrefix(f, cells, base, c, r), Cell(r, c, cells[CellToIdx(f, r, c)]), low, high, alpha);
  }

  /** A row whose value is unchanged adds nothing. */
  lemma SkipStep(f: Frame, cells: seq<int>, base: seq<int>, c: int, r: int)
    requires 0 <= r && !Differs(cells, base, CellToIdx(f, r, c))
    ensures ColumnPrefix(f, cells, base, c, r + 1) == ColumnPrefix(f, cells, base, c, r)
  {
    ColumnPrefixStep(f, cells, base, c, r);
  }

  /** The `k`-th rectangle paints the `k`-th cell. */
  lemma {:induction false} RectsElements(f: Frame, cs: seq<Cell>, low: string, high: string, alpha: Option<string>)
    ensures forall k | 0 <= k < |cs| :: Rects(f, cs, low, high, alpha)[k] == Paint(f, cs[k], low, high, alpha)
  {
    if cs != [] {
      var front := cs[..|cs| - 1];
      RectsElements(f, front, low, high, alpha);
      assert forall k | 0 <= k < |front| :: front[k] == cs[k];
    }
  }

  lemma RectsSnoc(f: Frame, cs: seq<Cell>, cell: Cell, low: string, high: string, alpha: Option<string>)
    ensures Rects(f, cs + [cell], low, high, alpha) == Rects(f, cs, low, high, alpha) + [Paint(f, cell, low, high, alpha)]
  {
    assert (cs + [cell])[..|cs|] == cs;
  }

  lemma {:induction false} RectsAppend(f: Frame, cs: seq<Cell>, ds: seq<Cell>, low: string, high: string, alpha: Option<string>)
    ensures Rects(f, cs + ds, low, high, alpha) == Rects(f, cs, low, high, alpha) + Rects(f, ds, low, high, alpha)
    decreases |ds|
  {
    if ds == [] {
      assert cs + ds == cs;
    } else {
      var front := ds[..|ds| - 1];
      var last := ds[|ds| - 1];
      assert ds == front + [last];
      assert cs + ds == (cs + front) + [last];
      RectsSnoc(f, cs + front, last, low, high, alpha);
      RectsAppend(f, cs, front, low, high, alpha);
      RectsSnoc(f, front, last, low, high, alpha);
    }
  }

  /** A cell of a `width` x `height` grid has a row-major index inside a buffer of `width * height` values. */
  lemma CellIndexInRange(f: Frame, r: int, c: int)
    requires 0 <= r < f.height && 0 <= c < f.width
    ensures 0 <= CellToIdx(f, r, c) < f.width * f.height
  {
    var w, h := f.width, f.height;
    assert r * w <= (h - 1) * w by {
      MulRightMono(r, h - 1, w);
    }
    assert (h - 1) * w == h * w - w;
    assert 0 <= r * w by {
      MulRightMono(0, r, w);
    }
  }

  /** Every cell of column `c` has its index inside a buffer of `width * height` values. */
  lemma ColumnInRange(f: Frame, cells: seq<int>, c: int)
    requires |cells| == f.width * f.height && 0 <= c < f.width
    ensures forall r | 0 <= r < f.height :: 0 <= CellToIdx(f, r, c) < |cells|
  {
    forall r | 0 <= r < f.height
      ensures 0 <= CellToIdx(f, r, c) < |cells|
    {
      CellIndexInRange(f, r, c);
    }
  }

  lemma MulRightMono(a: int, b: int, w: int)
    requires a <= b && 0 <= w
    ensures a * w <= b * w
  {
  }

  /** A cell listed for `cells` against `base`: it differs there, and carries its value in `cells`. */
  predicate Listed(f: Frame, cells: seq<int>, base: seq<int>, p: Cell) {
    Differs(cells, base, CellToIdx(f, p.row, p.col)) && p.value == cells[CellToIdx(f, p.row, p.col)]
  }

  /** Membership in a column prefix, both directions. */
  lemma {:induction false} ColumnPrefixMembers(f: Frame, cells: seq<int>, base: seq<int>, c: int, r: int, p: Cell)
    ensures p in ColumnPrefix(f, cells, base, c, r) <==> p.col == c && 0 <= p.row < r && Listed(f, cells, base, p)
    decreases r
  {
    if r > 0 {
      ColumnPrefixMembers(f, cells, base, c, r - 1, p);
    }
  }

  /** Membership in the traversal of the first `c` columns, both directions. */
  lemma {:induction false} ColumnsMembers(f: Frame, cells: seq<int>, base: seq<int>, c: int, p: Cell)
    ensures p in Columns(f, cells, base, c) <==> 0 <= p.col < c && 0 <= p.row < f.height && Listed(f, cells, base, p)
    decreases c
  {
    if c > 0 {
      ColumnsMembers(f, cells, base, c - 1, p);
      ColumnPrefixMembers(f, cells, base, c - 1, f.height, p);
    }
  }

  /**
   * A cell is drawn by the traversal exactly when it lies in the grid and its
   * value differs from the one in `base`; it is drawn with its new value.
   */
  lemma ChangedMembers(f: Frame, cells: seq<int>, base: seq<int>, p: Cell)
    ensures p in Changed(f, cells, base) <==>
            0 <= p.row < f.height && 0 <= p.col < f.width && Listed(f, cells, base, p)
  {
    ColumnsMembers(f, cells, base, f.width, p);
  }

  predicate NoDuplicates<T(==)>(s: seq<T>) {
    forall i, j | 0 <= i < j < |s| :: s[i] != s[j]
  }

  /** No two listed cells share a grid position. */
  predicate DistinctPositions(cs: seq<Cell>) {
    forall i, j | 0 <= i < j < |cs| :: (cs[i].row, cs[i].col) != (cs[j].row, cs[j].col)
  }

  lemma {:induction false} ColumnPrefixDistinct(f: Frame, cells: seq<int>, base: seq<int>, c: int, r: int)
    ensures DistinctPositions(ColumnPrefix(f, cells, base, c, r))
    decreases r
  {
    if r > 0 {
      var front := ColumnPrefix(f, cells, base, c, r - 1);
      ColumnPrefixDistinct(f, cells, base, c, r - 1);
      forall k | 0 <= k < |front|
        ensures front[k].row < r - 1
      {
        ColumnPrefixMembers(f, cells, base, c, r - 1, front[k]);
      }
    }
  }

  lemma {:induction false} ColumnsDistinct(f: Frame, cells: seq<int>, base: seq<int>, c: int)
    ensures DistinctPositions(Columns(f, cells, base, c))
    decreases c
  {
    if c > 0 {
      var front := Columns(f, cells, base, c - 1);
      var last := ColumnPrefix(f, cells, base, c - 1, f.height);
      ColumnsDistinct(f, cells, base, c - 1);
      ColumnPrefixDistinct(f, cells, base, c - 1, f.height);
      forall i, j | 0 <= i < |front| && 0 <= j < |last|
        ensures front[i].col < last[j].col
      {
        ColumnsMembers(f, cells, base, c - 1, front[i]);
        ColumnPrefixMembers(f, cells, base, c - 1, f.height, last[j]);
      }
    }
  }

  /** No grid position is drawn twice by one traversal. */
  lemma ChangedDistinct(f: Frame, cells: seq<int>, base: seq<int>)
    ensures DistinctPositions(Changed(f, cells, base))
  {
    ColumnsDistinct(f, cells, base, f.width);
  }

  /**
   * When the buffer holds `width * height` values, every index whose value
   * differs is drawn, through exactly one listed cell: the one `idxToCell`
   * names, with the index's new value.
   */
  lemma ChangedCoversIndices(f: Frame, cells: seq<int>, base: seq<int>, idx: int)
    requires 0 < f.width && |cells| == f.width * f.height
    requires Differs(cells, base, idx)
    ensures Cell(IdxToCell(f, idx).0, IdxToCell(f, idx).1, cells[idx]) in Changed(f, cells, base)
    ensures forall p | p in Changed(f, cells, base) && CellToIdx(f, p.row, p.col) == idx ::
              p == Cell(IdxToCell(f, idx).0, IdxToCell(f, idx).1, cells[idx])
  {
    IdxToCellInverse(f, idx);
    var (r, c) := IdxToCell(f, idx);
    if f.height <= r {
      MulRightMono(f.height, r, f.width);
      assert false;
    }
    ChangedMembers(f, cells, base, Cell(r, c, cells[idx]));
    forall p | p in Changed(f, cells, base) && CellToIdx(f, p.row, p.col) == idx
      ensures p == Cell(r, c, cells[idx])
    {
      ChangedMembers(f, cells, base, p);
      IdxRoundTrip(f, p.row, p.col);
    }
  }

  /** Comparing a buffer with itself lists nothing, so nothing is drawn. */
  lemma ChangedSelf(f: Frame, cells: seq<int>)
    ensures Changed(f, cells, cells) == []
  {
    if Changed(f, cells, cells) != [] {
      ChangedMembers(f, cells, cells, Changed(f, cells, cells)[0]);
    }
  }

  /** Against the all-zero buffer, exactly the non-zero cells of the grid are listed. */
  lemma ChangedFromZeros(f: Frame, cells: seq<int>, p: Cell)
    ensures p in Changed(f, cells, Zeros(|cells|)) <==>
            0 <= p.row < f.height && 0 <= p.col < f.width &&
            0 <= CellToIdx(f, p.row, p.col) < |cells| &&
            p.value == cells[CellToIdx(f, p.row, p.col)] && p.value != 0
  {
    ChangedMembers(f, cells, Zeros(|cells|), p);
  }

  /** The loops of the sweep: columns outer, rows inner. */
  method SweepOps(f: Frame, cells: seq<int>, base: seq<int>, low: string, high: string, alpha: Option<string>)
    returns (ops: seq<DrawOp>)
    requires |cells| == f.width * f.height
    ensures ops == Rects(f, Changed(f, cells, base), low, high, alpha)
  {
    ops := [];
    var c := 0;
    while c < f.width
      invariant 0 <= c <= if f.width < 0 then 0 else f.width
      invariant ops == Rects(f, Columns(f, cells, base, c), low, high, alpha)
    {
      ColumnInRange(f, cells, c);
      var column := ColumnOps(f, cells, base, c, low, high, alpha);
      RectsAppend(f, Columns(f, cells, base, c), ColumnPrefix(f, cells, base, c, f.height), low, high, alpha);
      ops := ops + column;
      c := c + 1;
    }
    if f.width < 0 {
      assert Columns(f, cells, base, c) == Changed(f, cells, base);
    }
  }

  /** The inner loop: the rectangles of column `c`, bottom row first. */
  method ColumnOps(f: Frame, cells: seq<int>, base: seq<int>, c: int, low: string, high: string, alpha: Option<string>)
    returns (ops: seq<DrawOp>)
    requires forall r | 0 <= r < f.height :: 0 <= CellToIdx(f, r, c) < |cells|
    ensures ops == Rects(f, ColumnPrefix(f, cells, base, c, f.height), low, high, alpha)
  {
    ops := [];
    var r := 0;
    while r < f.height
      invariant 0 <= r <= if f.height < 0 then 0 else f.height
      invariant ops == Rects(f, ColumnPrefix(f, cells, base, c, r), low, high, alpha)
    {
      var idx := CellToIdx(f, r, c);
      assert 0 <= idx < |cells|;
      if idx < |base| && cells[idx] != base[idx] {
        PaintStep(f, cells, base, c, r, low, high, alpha);
        ops := ops + [Paint(f, Cell(r, c, cells[idx]), low, high, alpha)];
      } else {
        SkipStep(f, cells, base, c, r);
      }
      r := r + 1;
    }
    if f.height < 0 {
      assert ColumnPrefix(f, cells, base, c, r) == ColumnPrefix(f, cells, base, c, f.height);
    }
  }

  /**
   * `MBotScene`'s map state. The canvas size, robot size and the configured
   * map colours are constants of the display.
   */
  class MBotScene {
    const pixWidth: real
    const pixHeight: real
    const robotSize: real
    const mapColourLow: string
    const mapColourHigh: string

    var width: int
    var height: int
    var metersPerCell: real
    var origin: (real, real)
    var pixPerCell: real
    var pixelsPerMeter: real
    /** The robot sprite's width and height in pixels. */
    var robotPixSize: real
    var mapCells: seq<int>
    var drawLog: seq<DrawOp>

    predicate Valid()
      reads this
    {
      0.0 < pixWidth &&
      metersPerCell != 0.0 && pixPerCell != 0.0 && pixelsPerMeter != 0.0 &&
      pixelsPerMeter == pixPerCell / metersPerCell
    }

    /** The geometry the coordinate conversions read. */
    function Frame(): (f: Frame)
      reads this
      ensures f.width == width && f.height == height && f.pixPerCell == pixPerCell
    {
      Geometry.Frame(width, height, metersPerCell, origin, pixHeight, pixPerCell, pixelsPerMeter)
    }

    /** A scene with no map: 0 x 0 cells of 0.05 m drawn 5 pixels wide; the robot sprite is sized from that scale. */
    constructor(pixWidth: real, pixHeight: real, robotSize: real, mapColourLow: string, mapColourHigh: string)
      requires 0.0 < pixWidth
      ensures Valid()
      ensures this.pixWidth == pixWidth && this.pixHeight == pixHeight && this.robotSize == robotSize
      ensures this.mapColourLow == mapColourLow && this.mapColourHigh == mapColourHigh
      ensures width == 0 && height == 0 && metersPerCell == 0.05 && origin == (0.0, 0.0)
      ensures pixPerCell == 5.0 && pixelsPerMeter == 100.0 && robotPixSize == robotSize * 100.0
      ensures mapCells == [] && drawLog == []
    {
      this.pixWidth := pixWidth;
      this.pixHeight := pixHeight;
      this.robotSize := robotSize;
      this.mapColourLow := mapColourLow;
      this.mapColourHigh := mapColourHigh;
      width := 0;
      height := 0;
      metersPerCell := 0.05;
      origin := (0.0, 0.0);
      pixPerCell := 5.0;
      pixelsPerMeter := 5.0 / 0.05;
      robotPixSize := robotSize * (5.0 / 0.05);
      mapCells := [];
      drawLog := [];
    }

    /**
     * `setMapHeaderData`: the grid's size, cell size and origin; the grid is
     * stretched over the canvas width, and both scales are recomputed together.
     */
    method SetMapHeaderData(width: int, height: int, metersPerCell: real, origin: (real, real))
      requires Valid()
      requires width != 0 && metersPerCell != 0.0
      modifies this
      ensures Valid()
      ensures this.width == width && this.height == height
      ensures this.metersPerCell == metersPerCell && this.origin == origin
      ensures pixPerCell * width as real == pixWidth
      ensures pixelsPerMeter * metersPerCell == pixPerCell
      ensures robotPixSize == robotSize * pixelsPerMeter
      ensures mapCells == old(mapCells) && drawLog == old(drawLog)
    {
      this.width := width;
      this.height := height;
      this.metersPerCell := metersPerCell;
      pixPerCell := pixWidth / width as real;
      pixelsPerMeter := pixWidth / width as real / metersPerCell;
      this.origin := origin;
      robotPixSize := robotSize * pixelsPerMeter;
      DivThenMul(pixWidth, width as real);
      DivThenMul(pixPerCell, metersPerCell);
    }

    /** `getMapData`: a snapshot of the map, present only when the buffer matches the header's grid size. */
    function GetMapData(): (r: Option<MapData>)
      reads this
      ensures r.Some? <==> |mapCells| == width * height
      ensures r.Some? ==> r.value.cells == mapCells && r.value.width == width && r.value.height == height
      ensures r.Some? ==> r.value.origin == origin && r.value.metersPerCell == metersPerCell
    {
      if |mapCells| != width * height then None
      else Some(MapData(mapCells, width, height, origin, metersPerCell))
    }

    /** `clear`: wipe the three layers, repaint the background and forget the buffer. */
    method Clear()
      requires Valid()
      modifies this
      ensures Valid() && Frame() == old(Frame()) && robotPixSize == old(robotPixSize)
      ensures mapCells == []
      ensures drawLog == old(drawLog) + ClearOps(pixWidth, pixHeight, mapColourLow, mapColourHigh)
    {
      drawLog := drawLog + ClearOps(pixWidth, pixHeight, mapColourLow, mapColourHigh);
      mapCells := [];
    }

    /**
     * `drawCells`: a buffer of the wrong length is refused and nothing changes;
     * otherwise the scene is cleared, one rectangle is drawn for every non-zero
     * cell and the buffer is kept.
     */
    method DrawCells(cells: seq<int>, low: string, high: string, alpha: string) returns (ok: bool)
      requires Valid()
      modifies this
      ensures Valid() && Frame() == old(Frame()) && robotPixSize == old(robotPixSize)
      ensures ok <==> |cells| == width * height
      ensures !ok ==> mapCells == old(mapCells) && drawLog == old(drawLog)
      ensures ok ==> mapCells == cells
      ensures ok ==> drawLog == old(drawLog) + ClearOps(pixWidth, pixHeight, mapColourLow, mapColourHigh) +
                              Rects(Frame(), Changed(Frame(), cells, Zeros(|cells|)), low, high, Some(alpha))
    {
      if |cells| != width * height {
        return false;
      }
      Clear();
      var ops := SweepOps(Frame(), cells, Zeros(|cells|), low, high, Some(alpha));
      drawLog := drawLog + ops;
      mapCells := cells;
      ok := true;
    }

    /**
     * `updateCells`: a buffer of the wrong length is refused and nothing
     * changes; a buffer whose length differs from the stored one is redrawn
     * from scratch; otherwise exactly the cells whose value changed are drawn.
     * Either way the new buffer is kept.
     */
    method UpdateCells(cells: seq<int>, low: string, high: string, alpha: string) returns (ok: bool)
      requires Valid()
      modifies this
      ensures Valid() && Frame() == old(Frame()) && robotPixSize == old(robotPixSize)
      ensures ok <==> |cells| == width * height
      ensures !ok ==> mapCells == old(mapCells) && drawLog == old(drawLog)
      ensures ok ==> mapCells == cells && GetMapData() == Some(MapData(cells, width, height, origin, metersPerCell))
      ensures ok && |cells| != |old(mapCells)| ==>
        drawLog == old(drawLog) + ClearOps(pixWidth, pixHeight, mapColourLow, mapColourHigh) +
                   Rects(Frame(), Changed(Frame(), cells, Zeros(|cells|)), low, high, Some(alpha))
      ensures ok && |cells| == |old(mapCells)| ==>
        drawLog == old(drawLog) + Rects(Frame(), Changed(Frame(), cells, old(mapCells)), low, high, None)
    {
      if |cells| != width * height {
        return false;
      }
      if |cells| != |mapCells| {
        ok := DrawCells(cells, low, high, alpha);
        return;
      }
      var ops := SweepOps(Frame(), cells, mapCells, low, high, None);
      drawLog := drawLog + ops;
      mapCells := cells;
      ok := true;
    }
  }

  /** Sending the stored buffer again draws nothing and keeps the buffer. */
  lemma UpdateSameBufferDrawsNothing(f: Frame, cells: seq<int>, low: string, high: string)
    ensures Rects(f, Changed(f, cells, cells), low, high, None) == []
  {
    ChangedSelf(f, cells);
  }
}
