/**
 * The integer part of the terrain data: saturating grid and cell
 * coordinates (`CoordPair<LIMIT>`), their packed id, the hole bitmap of a
 * grid and the release of a grid's tables. Heights, liquids and areas are
 * floating-point lookups into tables read from map files and are not part
 * of this module.
 */
module Maps {
  import opened Wrappers
  import opened Bytes

  /** `MAX_NUMBER_OF_GRIDS`: a map is 64 × 64 grids. */
  const MaxGrids: nat := 64
  /** `MAX_NUMBER_OF_CELLS`: a grid is 8 × 8 cells. */
  const MaxCells: nat := 8
  /** `TOTAL_NUMBER_OF_CELLS_PER_MAP`: the limit of a cell coordinate. */
  const CellsPerMap: nat := MaxGrids * MaxCells

  /** The two instantiations of `CoordPair`: `GridCoord` and `CellCoord`. */
  predicate IsLimit(limit: nat)
  {
    limit == MaxGrids || limit == CellsPerMap
  }

  /** `a + b` on `uint32`. */
  function Add32(a: nat, b: nat): (r: nat)
    requires a < U32 && b < U32
    ensures r < U32 && (r == a + b || r + U32 == a + b)
  {
    (a + b) % U32
  }

  function Min(a: nat, b: nat): nat
  {
    if a <= b then a else b
  }

  /** `dec_x`/`dec_y`: subtraction that stops at 0. */
  function Dec(c: nat, val: nat): (r: nat)
    ensures r <= c
    ensures c >= val ==> r + val == c
    ensures c < val ==> r == 0
  {
    if c > val then c - val else 0
  }

  /**
   * `inc_x`/`inc_y`: the sum is compared with the limit in `uint32`, so a
   * step that wraps around 2^32 lands on the wrapped sum. Whatever the
   * step, the result is a valid coordinate; without wrap-around it is the
   * sum clamped to the last coordinate.
   */
  function Inc(c: nat, val: nat, limit: nat): (r: nat)
    requires c < U32 && val < U32 && 0 < limit <= U32
    ensures r < limit
    ensures c + val < U32 ==> r == Min(c + val, limit - 1)
    ensures c + val >= U32 ==> r == Min(c + val - U32, limit - 1)
  {
    if Add32(c, val) < limit then Add32(c, val) else limit - 1
  }

  /** A step of 2^32 - 5 from coordinate 5 wraps to 0 instead of stopping at the last grid. */
  lemma IncWrapsAround()
    ensures Inc(5, U32 - 5, MaxGrids) == 0
  {
  }

  /** `y * LIMIT + x` in `uint32`: the index of a coordinate in row-major order. */
  function Id(x: nat, y: nat, limit: nat): (id: nat)
    requires IsLimit(limit) && x < limit && y < limit
    ensures id < limit * limit
    ensures id % limit == x && id / limit == y
  {
    IdBound(x, y, limit);
    var id := y * limit + x;
    ModUnique(id, limit, y, x);
    DivUnique(id, limit, y, x);
    id % U32
  }

  lemma IdBound(x: nat, y: nat, limit: nat)
    requires IsLimit(limit) && x < limit && y < limit
    ensures y * limit + x < limit * limit <= CellsPerMap * CellsPerMap < U32
  {
    assert y * limit <= (limit - 1) * limit;
  }

  lemma DivUnique(v: nat, d: nat, q: nat, r: nat)
    requires d > 0 && v == d * q + r && r < d
    ensures v / d == q
  {
    ModUnique(v, d, q, r);
    var q' := v / d;
    assert d * q' + r == d * q + r;
    MulCancel(d, q, q');
  }

  lemma MulCancel(d: nat, a: nat, b: nat)
    requires d > 0 && d * a == d * b
    ensures a == b
  {
    MulStep(d, a, b);
    MulStep(d, b, a);
  }

  /** Different valid coordinates of one instantiation have different ids. */
  lemma IdInjective(x1: nat, y1: nat, x2: nat, y2: nat, limit: nat)
    requires IsLimit(limit) && x1 < limit && y1 < limit && x2 < limit && y2 < limit
    ensures Id(x1, y1, limit) == Id(x2, y2, limit) <==> x1 == x2 && y1 == y2
  {
  }

  /** `CoordPair<LIMIT>`: two `uint32` coordinates updated in place. */
  class CoordPair {
    const limit: nat
    var x: nat
    var y: nat

    ghost predicate Valid()
      reads this
    {
      IsLimit(limit) && x < U32 && y < U32
    }

    /** `CoordPair(x, y)` with the defaults 0 given explicitly. */
    constructor (limit: nat, x: nat, y: nat)
      requires IsLimit(limit) && x < U32 && y < U32
      ensures Valid() && this.limit == limit && this.x == x && this.y == y
    {
      this.limit, this.x, this.y := limit, x, y;
    }

    /** `IsCoordValid`: both coordinates below the limit. */
    predicate IsCoordValid()
      reads this
    {
      x < limit && y < limit
    }

    method DecX(val: nat)
      requires Valid() && val < U32
      modifies this
      ensures Valid() && x == Dec(old(x), val) && y == old(y)
    {
      if x > val {
        x := x - val;
      } else {
        x := 0;
      }
    }

    method IncX(val: nat)
      requires Valid() && val < U32
      modifies this
      ensures Valid() && x == Inc(old(x), val, limit) && y == old(y)
    {
      var sum := Add32(x, val);
      if sum < limit {
        x := sum;
      } else {
        x := limit - 1;
      }
    }

    method DecY(val: nat)
      requires Valid() && val < U32
      modifies this
      ensures Valid() && y == Dec(old(y), val) && x == old(x)
    {
      if y > val {
        y := y - val;
      } else {
        y := 0;
      }
    }

    method IncY(val: nat)
      requires Valid() && val < U32
      modifies this
      ensures Valid() && y == Inc(old(y), val, limit) && x == old(x)
    {
      var sum := Add32(y, val);
      if sum < limit {
        y := sum;
      } else {
        y := limit - 1;
      }
    }

    /** `normalize`: clamps both coordinates into range, leaving valid ones alone. */
    method Normalize()
      requires Valid()
      modifies this
      ensures Valid() && IsCoordValid()
      ensures x == Min(old(x), limit - 1) && y == Min(old(y), limit - 1)
      ensures old(IsCoordValid()) ==> x == old(x) && y == old(y)
    {
      x := Min(x, limit - 1);
      y := Min(y, limit - 1);
    }

    /** `GetId` on a valid coordinate: its row-major index, from which both coordinates are recovered. */
    function GetId(): (id: nat)
      reads this
      requires Valid() && IsCoordValid()
      ensures id < limit * limit && id % limit == x && id / limit == y
    {
      Id(x, y, limit)
    }
  }

  /** A decrement or an increment keeps a valid coordinate valid. */
  lemma StepsKeepValid(c: nat, val: nat, limit: nat)
    requires IsLimit(limit) && c < limit && val < U32
    ensures Dec(c, val) < limit && Inc(c, val, limit) < limit
  {
  }

  // ---------------------------------------------------------------------------
  // Terrain holes

  /** `holetab_h`: the bit of a hole column in every row of a 4 × 4 block. */
  const HoleTabH: seq<bv16> := [0x1111, 0x2222, 0x4444, 0x8888]
  /** `holetab_v`: the four bits of a hole row. */
  const HoleTabV: seq<bv16> := [0x000F, 0x00F0, 0x0F00, 0xF000]

  /** A grid's hole table holds one 16-bit word per cell, 16 × 16 cells. */
  predicate HoleTable(holes: seq<bv16>)
  {
    |holes| == 256
  }

  /** The mask of bit k of a 16-bit word, for k in [0, 16). */
  const Bit: seq<bv16> := [
    0x0001, 0x0002, 0x0004, 0x0008, 0x0010, 0x0020, 0x0040, 0x0080,
    0x0100, 0x0200, 0x0400, 0x0800, 0x1000, 0x2000, 0x4000, 0x8000]

  /** Bit k of w is set: the reference reading of a hole bitmap. */
  predicate BitSet(w: bv16, k: nat)
    requires k < 16
  {
    w & Bit[k] != 0
  }

  /**
   * `isHole(row, col)` on a loaded table: the cell word of square
   * (row, col) masked with both tables. Callers pass squares of a grid,
   * `& 127`, so both are in [0, 128).
   */
  function HoleAt(holes: seq<bv16>, row: nat, col: nat): (b: bool)
    requires HoleTable(holes) && row < 128 && col < 128
  {
    var cellRow := row / 8;
    var cellCol := col / 8;
    var holeRow := row % 8 / 2;
    var holeCol := (col - cellCol * 8) / 2;
    Masked(holes[cellRow * 16 + cellCol], holeRow, holeCol)
  }

  /** A cell word masked with the row and the column tables. */
  predicate Masked(w: bv16, r: nat, c: nat)
    requires r < 4 && c < 4
  {
    w & HoleTabH[c] & HoleTabV[r] != 0
  }

  /**
   * Each cell is split into 4 × 4 blocks of 2 × 2 squares, and a square is
   * a hole exactly when bit 4·(block row) + (block column) of its cell word
   * is set.
   */
  lemma HoleBit(holes: seq<bv16>, row: nat, col: nat)
    requires HoleTable(holes) && row < 128 && col < 128
    ensures HoleAt(holes, row, col) <==> BitSet(holes[(row / 8) * 16 + col / 8], 4 * (row % 8 / 2) + col % 8 / 2)
  {
    var cellRow, cellCol := row / 8, col / 8;
    var holeRow, holeCol := row % 8 / 2, col % 8 / 2;
    assert (col - cellCol * 8) / 2 == holeCol;
    var w := holes[cellRow * 16 + cellCol];
    assert HoleAt(holes, row, col) == Masked(w, holeRow, holeCol);
    MaskIsBit(w, holeRow, holeCol);
  }

  /** The two table entries meet in exactly one bit. */
  lemma MaskIsBit(w: bv16, r: nat, c: nat)
    requires r < 4 && c < 4
    ensures Masked(w, r, c) <==> BitSet(w, 4 * r + c)
  {
    TablesMeet(r, c);
    assert w & HoleTabH[c] & HoleTabV[r] == w & (HoleTabH[c] & HoleTabV[r]);
  }

  lemma TablesMeet(r: nat, c: nat)
    requires r < 4 && c < 4
    ensures HoleTabH[c] & HoleTabV[r] == Bit[4 * r + c]
  {
    if r == 0 {
      if c == 0 { } else if c == 1 { } else if c == 2 { } else { }
    } else if r == 1 {
      if c == 0 { } else if c == 1 { } else if c == 2 { } else { }
    } else if r == 2 {
      if c == 0 { } else if c == 1 { } else if c == 2 { } else { }
    } else {
      if c == 0 { } else if c == 1 { } else if c == 2 { } else { }
    }
  }

  // ---------------------------------------------------------------------------
  // GridMap tables

  /** Which `getHeightFrom*` the height getter points at. */
  datatype HeightGetter = FromFlat | FromFloat | FromUint16 | FromUint8

  /**
   * The tables a `GridMap` owns. Each is absent (a null pointer) or holds
   * the words read from the map file; float tables are kept as their raw
   * 32-bit patterns.
   */
  datatype Tables = Tables(
    areaMap: Option<seq<bv16>>,
    v9: Option<seq<bv32>>,
    v8: Option<seq<bv32>>,
    minHeightPlanes: Option<seq<bv32>>,
    liquidEntry: Option<seq<bv16>>,
    liquidFlags: Option<seq<bv8>>,
    liquidMap: Option<seq<bv32>>,
    holes: Option<seq<bv16>>,
    getter: HeightGetter)

  /** `unloadData`: every table released and the height getter back to the flat one. */
  function Unload(t: Tables): (r: Tables)
    ensures r.holes.None? && r.getter == FromFlat
  {
    Tables(None, None, None, None, None, None, None, None, FromFlat)
  }

  /** Unloading twice is unloading once. */
  lemma UnloadIdempotent(t: Tables)
    ensures Unload(Unload(t)) == Unload(t)
  {
  }

  class GridMap {
    var tables: Tables
    /** `_flags`, `_gridArea`, `_liquidGlobalEntry` and the other integer header fields, in declaration order. */
    var flags: nat
    var gridArea: nat
    var liquidGlobalEntry: nat
    var liquidGlobalFlags: nat
    var liquidOffX: nat
    var liquidOffY: nat
    var liquidWidth: nat
    var liquidHeight: nat

    ghost predicate Valid()
      reads this
    {
      tables.holes.Some? ==> HoleTable(tables.holes.value)
    }

    /** `GridMap()`: no tables, the flat height getter, integer fields 0. */
    constructor ()
      ensures Valid() && tables == Unload(tables)
      ensures flags == gridArea == liquidGlobalEntry == liquidGlobalFlags == 0
      ensures liquidOffX == liquidOffY == liquidWidth == liquidHeight == 0
    {
      tables := Tables(None, None, None, None, None, None, None, None, FromFlat);
      flags, gridArea, liquidGlobalEntry, liquidGlobalFlags := 0, 0, 0, 0;
      liquidOffX, liquidOffY, liquidWidth, liquidHeight := 0, 0, 0, 0;
    }

    method UnloadData()
      modifies this`tables
      ensures Valid() && tables == Unload(old(tables))
    {
      tables := Tables(None, None, None, None, None, None, None, None, FromFlat);
    }

    /** `isHole`: no hole table means no holes. */
    function IsHole(row: nat, col: nat): (b: bool)
      reads this
      requires Valid() && row < 128 && col < 128
      ensures tables.holes.None? ==> !b
      ensures tables.holes.Some? ==> (b <==> BitSet(tables.holes.value[(row / 8) * 16 + col / 8], 4 * (row % 8 / 2) + col % 8 / 2))
    {
      if tables.holes.None? then false
      else
        HoleBit(tables.holes.value, row, col);
        HoleAt(tables.holes.value, row, col)
    }
  }

  /** After `unloadData` no square of the grid is a hole. */
  method UnloadedHasNoHoles(g: GridMap, row: nat, col: nat) returns (hole: bool)
    requires row < 128 && col < 128
    modifies g`tables
    ensures !hole
  {
    g.UnloadData();
    hole := g.IsHole(row, col);
  }
}
