/**
 * The coordinate frames of the map display (src/scene.js): world metres, grid
 * cells (row, column) and scene pixels, whose vertical axis points down while
 * the world's points up.
 */
module Geometry {
  import opened JsNumber

  /**
   * The map geometry the conversions read: grid size, cell size in metres, the
   * world position of the grid's lower-left corner, the canvas height in
   * pixels and the two derived scales.
   */
  datatype Frame = Frame(
    width: int,
    height: int,
    metersPerCell: real,
    origin: (real, real),
    pixHeight: real,
    pixPerCell: real,
    pixelsPerMeter: real)

  /** `posToPixels(x, y)`: world metres to scene pixels, flipping the vertical axis. */
  function PosToPixels(f: Frame, x: real, y: real): (real, real) {
    ((x - f.origin.0) * f.pixelsPerMeter,
     f.pixHeight - (y - f.origin.1) * f.pixelsPerMeter)
  }

  /** `pixelsToPos(u, v)` as written: `y = pixHeight - v / pixelsPerMeter - origin.y`. */
  function PixelsToPos(f: Frame, u: real, v: real): (real, real)
    requires f.pixelsPerMeter != 0.0
  {
    (u / f.pixelsPerMeter + f.origin.0,
     f.pixHeight - v / f.pixelsPerMeter - f.origin.1)
  }

  /** The inverse of `posToPixels` that `pixelsToPos` is meant to be. */
  function PixelsToPosIntended(f: Frame, u: real, v: real): (real, real)
    requires f.pixelsPerMeter != 0.0
  {
    (u / f.pixelsPerMeter + f.origin.0, (f.pixHeight - v) / f.pixelsPerMeter + f.origin.1)
  }

  /** `cellToPixels(r, c)`: the top-left pixel of a cell; row 0 is drawn at the bottom. */
  function CellToPixels(f: Frame, r: int, c: int): (real, real) {
    (c as real * f.pixPerCell, (f.height - r - 1) as real * f.pixPerCell)
  }

  /** `pixelsToCell(u, v)`: `[floor(u / pixPerCell), floor(v / pixPerCell)]`, i.e. (column, flipped row). */
  function PixelsToCell(f: Frame, u: real, v: real): (int, int)
    requires f.pixPerCell != 0.0
  {
    (Floor(u / f.pixPerCell), Floor(v / f.pixPerCell))
  }

  /** `posToCell(x, y)`: the (row, column) of the cell holding a world point. */
  function PosToCell(f: Frame, x: real, y: real): (int, int)
    requires f.metersPerCell != 0.0
  {
    (Floor((y - f.origin.1) / f.metersPerCell), Floor((x - f.origin.0) / f.metersPerCell))
  }

  /** `cellToIdx(r, c)`: row-major index. */
  function CellToIdx(f: Frame, r: int, c: int): int {
    c + r * f.width
  }

  /** `idxToCell(idx)`: `[floor(idx / width), idx % width]` with JavaScript's `%`. */
  function IdxToCell(f: Frame, idx: int): (int, int)
    requires f.width != 0
  {
    (Floor(idx as real / f.width as real), RemInt(idx, f.width))
  }

  lemma DivThenMul(a: real, b: real)
    requires b != 0.0
    ensures (a / b) * b == a
  {
  }

  lemma MulThenDiv(a: real, b: real)
    requires b != 0.0
    ensures (a * b) / b == a
  {
  }

  /**
   * The corrected conversion and `posToPixels` undo each other, in both
   * directions.
   */
  lemma PixelsToPosIntendedInverse(f: Frame, x: real, y: real, u: real, v: real)
    requires f.pixelsPerMeter != 0.0
    ensures PixelsToPosIntended(f, PosToPixels(f, x, y).0, PosToPixels(f, x, y).1) == (x, y)
    ensures PosToPixels(f, PixelsToPosIntended(f, u, v).0, PixelsToPosIntended(f, u, v).1) == (u, v)
  {
    var m, h := f.pixelsPerMeter, f.pixHeight;
    var (pu, pv) := PosToPixels(f, x, y);
    var dy := (y - f.origin.1) * m;
    calc {
      PixelsToPosIntended(f, pu, pv).1;
      (h - (h - dy)) / m + f.origin.1;
      dy / m + f.origin.1;
      { MulThenDiv(y - f.origin.1, m); }
      y;
    }
    calc {
      PixelsToPosIntended(f, pu, pv).0;
      ((x - f.origin.0) * m) / m + f.origin.0;
      { MulThenDiv(x - f.origin.0, m); }
      x;
    }
    var (qx, qy) := PixelsToPosIntended(f, u, v);
    calc {
      PosToPixels(f, qx, qy).0;
      (u / m) * m;
      { DivThenMul(u, m); }
      u;
    }
    calc {
      PosToPixels(f, qx, qy).1;
      h - ((h - v) / m) * m;
      { DivThenMul(h - v, m); }
      v;
    }
  }

  /** Dividing a row-major index by the width recovers the row and the column. */
  lemma IdxRoundTrip(f: Frame, r: int, c: int)
    requires 0 <= r && 0 <= c < f.width
    ensures IdxToCell(f, CellToIdx(f, r, c)) == (r, c)
  {
    var w := f.width;
    var idx := c + r * w;
    RowMajorQuotient(c, r, w);
    FractionBelowOne(c, w);
    IntDivUnique(idx, w, r, c);
  }

  /** The real quotient of a row-major index by the width is the row plus the column's fraction. */
  lemma RowMajorQuotient(c: int, r: int, w: int)
    requires 0 < w
    ensures (c + r * w) as real / w as real == c as real / w as real + r as real
  {
    calc {
      (c + r * w) as real / w as real;
      (c as real + r as real * w as real) / w as real;
      c as real / w as real + (r as real * w as real) / w as real;
      { MulThenDiv(r as real, w as real); }
      c as real / w as real + r as real;
    }
  }

  /** Every non-negative index is the row-major index of the cell `idxToCell` gives. */
  lemma IdxToCellInverse(f: Frame, idx: int)
    requires 0 <= idx && 0 < f.width
    ensures 0 <= IdxToCell(f, idx).0 && 0 <= IdxToCell(f, idx).1 < f.width
    ensures CellToIdx(f, IdxToCell(f, idx).0, IdxToCell(f, idx).1) == idx
  {
    var w := f.width;
    var r, c := idx / w, idx % w;
    assert idx == c + r * w;
    assert 0 <= r by {
      if r < 0 {
        NegativeTimesPositive(r, w);
      }
    }
    IdxRoundTrip(f, r, c);
  }

  lemma FractionBelowOne(c: int, w: int)
    requires 0 <= c < w
    ensures 0.0 <= c as real / w as real < 1.0
  {
  }

  lemma NegativeTimesPositive(r: int, w: int)
    requires r < 0 < w
    ensures r * w <= -w
  {
  }

  /** Euclidean division is determined by its remainder range. */
  lemma IntDivUnique(a: int, w: int, q: int, m: int)
    requires 0 < w && 0 <= m < w && a == m + q * w
    ensures a / w == q && a % w == m
  {
    var q', m' := a / w, a % w;
    assert (q' - q) * w == m - m';
    if q' > q {
      AtLeastOneTimes(q' - q, w);
    } else if q' < q {
      AtLeastOneTimes(q - q', w);
    }
  }

  lemma AtLeastOneTimes(k: int, w: int)
    requires 1 <= k && 0 < w
    ensures w <= k * w
  {
  }

  /** A cell's pixel corner converts back to (column, flipped row): `pixelsToCell` does not return (row, column). */
  lemma CellPixelsRoundTrip(f: Frame, r: int, c: int)
    requires f.pixPerCell != 0.0
    ensures PixelsToCell(f, CellToPixels(f, r, c).0, CellToPixels(f, r, c).1) == (c, f.height - r - 1)
  {
    var row := f.height - r - 1;
    var (u, v) := CellToPixels(f, r, c);
    MulThenDiv(c as real, f.pixPerCell);
    MulThenDiv(row as real, f.pixPerCell);
    assert u / f.pixPerCell == c as real;
    assert v / f.pixPerCell == row as real;
    FloorOfInt(c);
    FloorOfInt(row);
  }

  /** `pixelsToPos` undoes `posToPixels` on the horizontal axis. */
  lemma PosPixelsRoundTripX(f: Frame, x: real, y: real)
    requires f.pixelsPerMeter != 0.0
    ensures PixelsToPos(f, PosToPixels(f, x, y).0, PosToPixels(f, x, y).1).0 == x
  {
    MulThenDiv(x - f.origin.0, f.pixelsPerMeter);
  }

  /**
   * On the vertical axis `pixelsToPos` does not undo `posToPixels`: the round
   * trip shifts `y` by `pixHeight - pixHeight / pixelsPerMeter - 2 * origin.y`,
   * so it returns `y` only when that offset happens to be zero.
   */
  lemma PosPixelsRoundTripY(f: Frame, x: real, y: real)
    requires f.pixelsPerMeter != 0.0
    ensures PixelsToPos(f, PosToPixels(f, x, y).0, PosToPixels(f, x, y).1).1
            == y + f.pixHeight - f.pixHeight / f.pixelsPerMeter - 2.0 * f.origin.1
    ensures PixelsToPos(f, PosToPixels(f, x, y).0, PosToPixels(f, x, y).1).1 == y
            <==> f.pixHeight - f.pixHeight / f.pixelsPerMeter == 2.0 * f.origin.1
  {
    var m, h := f.pixelsPerMeter, f.pixHeight;
    var dy := (y - f.origin.1) * m;
    calc {
      PixelsToPos(f, PosToPixels(f, x, y).0, PosToPixels(f, x, y).1).1;
      h - (h - dy) / m - f.origin.1;
      h - h / m + dy / m - f.origin.1;
      { MulThenDiv(y - f.origin.1, m); }
      h - h / m + y - 2.0 * f.origin.1;
    }
  }

  /** The vertical shift a pixel picks up going through `pixelsToPos` and back through `posToPixels`. */
  function ClickShift(f: Frame): real {
    f.pixHeight - f.pixHeight * f.pixelsPerMeter + 2.0 * f.origin.1 * f.pixelsPerMeter
  }

  /**
   * From the pixel side, `posToPixels` after `pixelsToPos` returns `u`, while
   * `v` comes back shifted by `ClickShift`, which is 0 only for special frames.
   */
  lemma PixelsPosRoundTrip(f: Frame, u: real, v: real)
    requires f.pixelsPerMeter != 0.0
    ensures PosToPixels(f, PixelsToPos(f, u, v).0, PixelsToPos(f, u, v).1).0 == u
    ensures PosToPixels(f, PixelsToPos(f, u, v).0, PixelsToPos(f, u, v).1).1 == v + ClickShift(f)
  {
    var m, h, o := f.pixelsPerMeter, f.pixHeight, f.origin.1;
    DivThenMul(u, m);
    DivThenMul(v, m);
    calc {
      PosToPixels(f, PixelsToPos(f, u, v).0, PixelsToPos(f, u, v).1).1;
      h - (h - v / m - o - o) * m;
      h - (h * m - (v / m) * m - 2.0 * o * m);
      v + h - h * m + 2.0 * o * m;
    }
  }

  /** The map of the display with a 500-pixel canvas: a 10 x 10 grid of 0.1 m cells around the world origin. */
  const Sample := Frame(10, 10, 0.1, (-0.5, -0.5), 500.0, 50.0, 500.0)

  /** On that map the world origin comes back from a round trip 500 m higher, while the corrected conversion returns it. */
  lemma PosPixelsRoundTripYSample()
    ensures PosToPixels(Sample, 0.0, 0.0) == (250.0, 250.0)
    ensures PixelsToPos(Sample, 250.0, 250.0) == (0.0, 500.0)
    ensures PixelsToPosIntended(Sample, 250.0, 250.0) == (0.0, 0.0)
  {
  }

  /**
   * `posToCell` returns the (row, column) whose square of side `metersPerCell`,
   * measured from the origin, contains the world point.
   */
  lemma PosToCellContains(f: Frame, x: real, y: real)
    requires 0.0 < f.metersPerCell
    ensures var (row, col) := PosToCell(f, x, y);
      row as real * f.metersPerCell <= y - f.origin.1 < (row + 1) as real * f.metersPerCell &&
      col as real * f.metersPerCell <= x - f.origin.0 < (col + 1) as real * f.metersPerCell
  {
    var (row, col) := PosToCell(f, x, y);
    FloorScaled(y - f.origin.1, f.metersPerCell, row);
    FloorScaled(x - f.origin.0, f.metersPerCell, col);
  }

  lemma FloorScaled(d: real, m: real, k: int)
    requires 0.0 < m && k == Floor(d / m)
    ensures k as real * m <= d < (k + 1) as real * m
  {
    var q := d / m;
    assert k as real <= q < k as real + 1.0;
    DivThenMul(d, m);
    MulLe(k as real, q, m);
    MulLt(q, k as real + 1.0, m);
    assert q * m == d;
    assert d < (k as real + 1.0) * m;
    var k1: real := (k + 1) as real;
    assert k1 == k as real + 1.0;
    assert d < k1 * m;
  }

  lemma FloorOfInt(n: int)
    ensures Floor(n as real) == n
  {
    var k := Floor(n as real);
    assert k as real <= n as real < k as real + 1.0;
  }

  lemma MulLe(a: real, b: real, m: real)
    requires a <= b && 0.0 < m
    ensures a * m <= b * m
  {
  }

  lemma MulLt(a: real, b: real, m: real)
    requires a < b && 0.0 < m
    ensures a * m < b * m
  {
  }
}
