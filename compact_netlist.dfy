/** The configuration-bit bookkeeping of the compact Verilog netlist
    writer: the order in which grid tiles are visited, the contiguous range of
    configuration bits each visited tile receives from a running counter, the
    per-model SRAM/scan-chain/I/O-pad counters that advance the same way, the
    per-instance ranges inside one physical block, the instantiation pass and
    its skip rules, and the composition of grid module names.

    The FPGA is a grid of `(nx + 2) x (ny + 2)` tiles; the core occupies
    `x in 1..nx, y in 1..ny` and I/O tiles surround it. */
module CompactNetlist {
  import opened Common
  import RRTypes
  import RRGraphBuilder

  datatype Coord = Coord(x: int, y: int)

  /** The parts of `t_type_descriptor` and of its physical `pb_type` the
      writer reads.  `IO_TYPE` and `EMPTY_TYPE` are recognised by the two
      flags. */
  datatype BlockType = BlockType(
    name: string,
    isIO: bool,
    isEmpty: bool,
    capacity: nat,
    numConfBits: nat,
    numReservedConfBits: nat,
    numIopads: nat)

  /** `t_grid_tile`: the block type placed on a tile, and the tile's offset
      inside a block taller than one tile (non-zero on continuation tiles). */
  datatype GridTile = GridTile(blockType: BlockType, offset: int)

  /** The grid has `nx + 2` columns of `ny + 2` tiles each. */
  predicate GridShape(grid: seq<seq<GridTile>>, nx: int, ny: int) {
    nx >= 0 && ny >= 0 && |grid| == nx + 2 && (forall x :: 0 <= x < |grid| ==> |grid[x]| == ny + 2)
  }

  predicate InGrid(grid: seq<seq<GridTile>>, c: Coord) {
    0 <= c.x < |grid| && 0 <= c.y < |grid[c.x]|
  }

  predicate AllInGrid(grid: seq<seq<GridTile>>, order: seq<Coord>) {
    forall j :: 0 <= j < |order| ==> InGrid(grid, order[j])
  }

  function TypeAt(grid: seq<seq<GridTile>>, c: Coord): BlockType
    requires InGrid(grid, c)
  {
    grid[c.x][c.y].blockType
  }

  /** Tiles `(1, y) .. (nx, y)` of row `y` are I/O tiles. */
  predicate IORow(grid: seq<seq<GridTile>>, nx: int, ny: int, y: int)
    requires GridShape(grid, nx, ny) && 0 <= y <= ny + 1
  {
    forall x :: 1 <= x <= nx ==> grid[x][y].blockType.isIO
  }

  /** Tiles `(x, 1) .. (x, ny)` of column `x` are I/O tiles. */
  predicate IOColumn(grid: seq<seq<GridTile>>, nx: int, ny: int, x: int)
    requires GridShape(grid, nx, ny) && 0 <= x <= nx + 1
  {
    forall y :: 1 <= y <= ny ==> grid[x][y].blockType.isIO
  }

  /** Tiles `(x, 1) .. (x, ny)` of core column `x` are not I/O tiles. */
  predicate CoreColumn(grid: seq<seq<GridTile>>, nx: int, ny: int, x: int)
    requires GridShape(grid, nx, ny) && 1 <= x <= nx
  {
    forall y :: 1 <= y <= ny ==> !grid[x][y].blockType.isIO
  }

  /** The placement the traversal asserts: no core tile is an I/O tile and
      every tile on the border, corners excluded, is one. */
  predicate DeviceLayout(grid: seq<seq<GridTile>>, nx: int, ny: int)
    requires GridShape(grid, nx, ny)
  {
    && (forall x :: 1 <= x <= nx ==> CoreColumn(grid, nx, ny, x))
    && IORow(grid, nx, ny, ny + 1) && IOColumn(grid, nx, ny, nx + 1)
    && IORow(grid, nx, ny, 0) && IOColumn(grid, nx, ny, 0)
  }

  // ---------------------------------------------------------------------
  // Visit order of the allocation pass
  // ---------------------------------------------------------------------

  /** A core tile receives bits unless it is EMPTY or a continuation tile
      (positive offset) of a taller block. */
  predicate CoreTileAllocated(t: GridTile) {
    !t.blockType.isEmpty && !(0 < t.offset)
  }

  /** The allocated core tiles `(x, 1) .. (x, y - 1)` of column `x`, bottom
      up. */
  function ColumnUpTo(grid: seq<seq<GridTile>>, nx: int, ny: int, x: int, y: int): (r: seq<Coord>)
    requires GridShape(grid, nx, ny) && 1 <= x <= nx && 1 <= y <= ny + 1
    decreases y
  {
    if y == 1 then []
    else ColumnUpTo(grid, nx, ny, x, y - 1) + (if CoreTileAllocated(grid[x][y - 1]) then [Coord(x, y - 1)] else [])
  }

  /** The allocated core tiles of columns `1 .. x - 1`, column by column. */
  function CoreUpTo(grid: seq<seq<GridTile>>, nx: int, ny: int, x: int): (r: seq<Coord>)
    requires GridShape(grid, nx, ny) && 1 <= x <= nx + 1
    decreases x
  {
    if x == 1 then []
    else CoreUpTo(grid, nx, ny, x - 1) + ColumnUpTo(grid, nx, ny, x - 1, ny + 1)
  }

  /** `ColumnUpTo` holds exactly the allocated tiles of column `x` below
      row `y`. */
  lemma {:induction false} ColumnUpToMembers(grid: seq<seq<GridTile>>, nx: int, ny: int, x: int, y: int)
    requires GridShape(grid, nx, ny) && 1 <= x <= nx && 1 <= y <= ny + 1
    ensures forall c :: c in ColumnUpTo(grid, nx, ny, x, y) <==>
      c.x == x && 1 <= c.y < y && CoreTileAllocated(grid[c.x][c.y])
    decreases y
  {
    if y > 1 {
      ColumnUpToMembers(grid, nx, ny, x, y - 1);
    }
  }

  /** `CoreUpTo` holds exactly the allocated core tiles left of column
      `x`. */
  lemma {:induction false} CoreUpToMembers(grid: seq<seq<GridTile>>, nx: int, ny: int, x: int)
    requires GridShape(grid, nx, ny) && 1 <= x <= nx + 1
    ensures forall c :: c in CoreUpTo(grid, nx, ny, x) <==>
      1 <= c.x < x && 1 <= c.y <= ny && CoreTileAllocated(grid[c.x][c.y])
    decreases x
  {
    if x > 1 {
      CoreUpToMembers(grid, nx, ny, x - 1);
      ColumnUpToMembers(grid, nx, ny, x - 1, ny + 1);
    }
  }

  /** The tiles `(1, y) .. (x - 1, y)` of row `y`, left to right. */
  function RowUpTo(y: int, x: int): (r: seq<Coord>)
    requires x >= 1
    ensures |r| == x - 1
    ensures forall j :: 0 <= j < |r| ==> r[j] == Coord(j + 1, y)
    ensures forall c :: c in r ==> c.y == y && 1 <= c.x < x
    decreases x
  {
    if x == 1 then [] else RowUpTo(y, x - 1) + [Coord(x - 1, y)]
  }

  /** The tiles `(x, 1) .. (x, y - 1)` of column `x`, bottom up. */
  function ColUpTo(x: int, y: int): (r: seq<Coord>)
    requires y >= 1
    ensures |r| == y - 1
    ensures forall j :: 0 <= j < |r| ==> r[j] == Coord(x, j + 1)
    ensures forall c :: c in r ==> c.x == x && 1 <= c.y < y
    decreases y
  {
    if y == 1 then [] else ColUpTo(x, y - 1) + [Coord(x, y - 1)]
  }

  /** The visit order of `compact_verilog_update_grid_spice_model_and_sram_orgz_info`:
      nothing on a grid without a core; otherwise the allocated core tiles
      (x outer, y inner), then the top row, the right column, the bottom row
      and the left column. */
  function AllocationOrder(grid: seq<seq<GridTile>>, nx: int, ny: int): (r: seq<Coord>)
    requires GridShape(grid, nx, ny)
    ensures forall c :: c in r ==> InGrid(grid, c)
    ensures AllInGrid(grid, r)
  {
    if nx == 0 || ny == 0 then []
    else
      CoreUpToMembers(grid, nx, ny, nx + 1);
      CoreUpTo(grid, nx, ny, nx + 1) + RowUpTo(ny + 1, nx + 1) + ColUpTo(nx + 1, ny + 1)
      + RowUpTo(0, nx + 1) + ColUpTo(0, ny + 1)
  }

  /** A tile is visited exactly when it is an allocated core tile or a
      border tile that is not a corner, and only when the grid has a core. */
  lemma AllocationOrderMembers(grid: seq<seq<GridTile>>, nx: int, ny: int, c: Coord)
    requires GridShape(grid, nx, ny)
    ensures c in AllocationOrder(grid, nx, ny) <==>
      && nx > 0 && ny > 0
      && (|| (1 <= c.x <= nx && 1 <= c.y <= ny && CoreTileAllocated(grid[c.x][c.y]))
          || ((c.y == ny + 1 || c.y == 0) && 1 <= c.x <= nx)
          || ((c.x == nx + 1 || c.x == 0) && 1 <= c.y <= ny))
  {
    if nx > 0 && ny > 0 {
      CoreUpToMembers(grid, nx, ny, nx + 1);
      var top := RowUpTo(ny + 1, nx + 1);
      var right := ColUpTo(nx + 1, ny + 1);
      var bottom := RowUpTo(0, nx + 1);
      var left := ColUpTo(0, ny + 1);
      if (c.y == ny + 1 || c.y == 0) && 1 <= c.x <= nx {
        if c.y == ny + 1 { assert top[c.x - 1] == c; } else { assert bottom[c.x - 1] == c; }
      }
      if (c.x == nx + 1 || c.x == 0) && 1 <= c.y <= ny {
        if c.x == nx + 1 { assert right[c.y - 1] == c; } else { assert left[c.y - 1] == c; }
      }
    }
  }

  /** The four corner tiles are never visited. */
  lemma CornersNeverVisited(grid: seq<seq<GridTile>>, nx: int, ny: int)
    requires GridShape(grid, nx, ny)
    ensures Coord(0, 0) !in AllocationOrder(grid, nx, ny)
    ensures Coord(0, ny + 1) !in AllocationOrder(grid, nx, ny)
    ensures Coord(nx + 1, 0) !in AllocationOrder(grid, nx, ny)
    ensures Coord(nx + 1, ny + 1) !in AllocationOrder(grid, nx, ny)
  {
    AllocationOrderMembers(grid, nx, ny, Coord(0, 0));
    AllocationOrderMembers(grid, nx, ny, Coord(0, ny + 1));
    AllocationOrderMembers(grid, nx, ny, Coord(nx + 1, 0));
    AllocationOrderMembers(grid, nx, ny, Coord(nx + 1, ny + 1));
  }

  ghost predicate Distinct(s: seq<Coord>) {
    forall i, j :: 0 <= i < j < |s| ==> s[i] != s[j]
  }

  lemma DistinctAppend(s: seq<Coord>, t: seq<Coord>)
    requires Distinct(s) && Distinct(t)
    requires forall c :: c in s ==> c !in t
    ensures Distinct(s + t)
  {
    forall i, j | 0 <= i < j < |s + t| ensures (s + t)[i] != (s + t)[j] {
      if j >= |s| && i < |s| {
        assert (s + t)[i] in s && (s + t)[j] == t[j - |s|];
      }
    }
  }

  lemma {:induction false} ColumnUpToDistinct(grid: seq<seq<GridTile>>, nx: int, ny: int, x: int, y: int)
    requires GridShape(grid, nx, ny) && 1 <= x <= nx && 1 <= y <= ny + 1
    ensures Distinct(ColumnUpTo(grid, nx, ny, x, y))
    decreases y
  {
    if y > 1 {
      ColumnUpToDistinct(grid, nx, ny, x, y - 1);
      ColumnUpToMembers(grid, nx, ny, x, y - 1);
      DistinctAppend(ColumnUpTo(grid, nx, ny, x, y - 1),
                     if CoreTileAllocated(grid[x][y - 1]) then [Coord(x, y - 1)] else []);
    }
  }

  lemma {:induction false} CoreUpToDistinct(grid: seq<seq<GridTile>>, nx: int, ny: int, x: int)
    requires GridShape(grid, nx, ny) && 1 <= x <= nx + 1
    ensures Distinct(CoreUpTo(grid, nx, ny, x))
    decreases x
  {
    if x > 1 {
      CoreUpToDistinct(grid, nx, ny, x - 1);
      ColumnUpToDistinct(grid, nx, ny, x - 1, ny + 1);
      CoreUpToMembers(grid, nx, ny, x - 1);
      ColumnUpToMembers(grid, nx, ny, x - 1, ny + 1);
      DistinctAppend(CoreUpTo(grid, nx, ny, x - 1), ColumnUpTo(grid, nx, ny, x - 1, ny + 1));
    }
  }

  /** No tile is visited twice, so no tile's range is overwritten. */
  lemma AllocationOrderDistinct(grid: seq<seq<GridTile>>, nx: int, ny: int)
    requires GridShape(grid, nx, ny)
    ensures Distinct(AllocationOrder(grid, nx, ny))
  {
    if nx > 0 && ny > 0 {
      var core := CoreUpTo(grid, nx, ny, nx + 1);
      var top := RowUpTo(ny + 1, nx + 1);
      var right := ColUpTo(nx + 1, ny + 1);
      var bottom := RowUpTo(0, nx + 1);
      var left := ColUpTo(0, ny + 1);
      CoreUpToDistinct(grid, nx, ny, nx + 1);
      CoreUpToMembers(grid, nx, ny, nx + 1);
      DistinctAppend(core, top);
      DistinctAppend(core + top, right);
      DistinctAppend(core + top + right, bottom);
      DistinctAppend(core + top + right + bottom, left);
    }
  }

  // ---------------------------------------------------------------------
  // Bit ranges handed out along the visit order
  // ---------------------------------------------------------------------

  /** What a counter measures: configuration bits (SRAM, scan-chain flip-flops
      and the memory organisation) or I/O pads. */
  datatype Measure = ConfBits | Iopads

  /** The bits a tile of type `t` consumes: `capacity` times the per-instance
      count of its physical mode. */
  function TileSize(t: BlockType, m: Measure): (n: nat)
    ensures m == ConfBits ==> n == t.capacity * t.numConfBits
    ensures m == Iopads ==> n == t.capacity * t.numIopads
  {
    match m
    case ConfBits => t.capacity * t.numConfBits
    case Iopads => t.capacity * t.numIopads
  }

  /** Bits consumed by the tiles of `order`. */
  function Total(grid: seq<seq<GridTile>>, order: seq<Coord>, m: Measure): (n: nat)
    requires AllInGrid(grid, order)
    ensures order == [] ==> n == 0
  {
    if order == [] then 0
    else Total(grid, order[..|order| - 1], m) + TileSize(TypeAt(grid, order[|order| - 1]), m)
  }

  /** The counter grows by the size of each tile in turn. */
  lemma TotalStep(grid: seq<seq<GridTile>>, order: seq<Coord>, j: nat, m: Measure)
    requires AllInGrid(grid, order) && j < |order|
    ensures Total(grid, order[..j + 1], m) == Total(grid, order[..j], m) + TileSize(TypeAt(grid, order[j]), m)
  {
    assert order[..j + 1][..j] == order[..j];
  }

  /** The counter never decreases along the order. */
  lemma {:induction false} TotalMonotone(grid: seq<seq<GridTile>>, order: seq<Coord>, j: nat, k: nat, m: Measure)
    requires AllInGrid(grid, order) && j <= k <= |order|
    ensures Total(grid, order[..j], m) <= Total(grid, order[..k], m)
    decreases k - j
  {
    if j < k {
      TotalStep(grid, order, k - 1, m);
      TotalMonotone(grid, order, j, k - 1, m);
    }
  }

  /** The range `[lsb, msb)` of the `j`-th visited tile for a counter that
      starts at `start`. */
  function RangeOf(grid: seq<seq<GridTile>>, order: seq<Coord>, start: int, j: nat, m: Measure): (r: (int, int))
    requires AllInGrid(grid, order) && j < |order|
    ensures r.0 <= r.1 && r.1 - r.0 == TileSize(TypeAt(grid, order[j]), m)
  {
    TotalStep(grid, order, j, m);
    (start + Total(grid, order[..j], m), start + Total(grid, order[..j + 1], m))
  }

  /** Consecutive tiles receive adjacent ranges, the first range starts at
      the counter's start and the last one ends at its final value. */
  lemma RangesContiguous(grid: seq<seq<GridTile>>, order: seq<Coord>, start: int, m: Measure)
    requires AllInGrid(grid, order)
    ensures forall j :: 0 <= j < |order| - 1 ==> RangeOf(grid, order, start, j, m).1 == RangeOf(grid, order, start, j + 1, m).0
    ensures |order| > 0 ==> RangeOf(grid, order, start, 0, m).0 == start
    ensures |order| > 0 ==> RangeOf(grid, order, start, |order| - 1, m).1 == start + Total(grid, order, m)
  {
    if |order| > 0 {
      assert order[..0] == [];
      assert order[..|order|] == order;
    }
  }

  /** The ranges of two different visits never overlap. */
  lemma RangesDisjoint(grid: seq<seq<GridTile>>, order: seq<Coord>, start: int, m: Measure, j: nat, k: nat)
    requires AllInGrid(grid, order) && j < k < |order|
    ensures RangeOf(grid, order, start, j, m).1 <= RangeOf(grid, order, start, k, m).0
  {
    TotalMonotone(grid, order, j + 1, k, m);
  }

  // ---------------------------------------------------------------------
  // Spice-model counters (compact_verilog_update_one_spice_model_grid_index)
  // ---------------------------------------------------------------------

  /** `e_spice_model_type`; `Unlisted` stands for every enumerator the
      update does not list. */
  datatype SpiceModelKind =
    | InvBuf | PassGate | Lut | Mux | Wire | ChanWire | FF | HardLogic | Gate
    | Scff | Sram | Iopad | Unlisted

  /** The part of `t_spice_model` the update touches: its running counter
      and the per-tile `grid_index_low` / `grid_index_high` tables, keyed by
      tile. */
  datatype SpiceModel = SpiceModel(kind: SpiceModelKind, cnt: int,
                                   gridIndexLow: map<Coord, int>, gridIndexHigh: map<Coord, int>)

  /** The counter a model kind advances, if any. */
  function MeasureOf(k: SpiceModelKind): (m: Option<Measure>)
    ensures m == Some(ConfBits) <==> k == Scff || k == Sram
    ensures m == Some(Iopads) <==> k == Iopad
  {
    match k
    case Scff => Some(ConfBits)
    case Sram => Some(ConfBits)
    case Iopad => Some(Iopads)
    case _ => None
  }

  /** The update of one model for one tile: SRAM and scan-chain models
      receive `[cnt, cnt + capacity * conf_bits)`, I/O-pad models
      `[cnt, cnt + capacity * iopads)`, and the counter moves to the end of
      the range; the other listed kinds are left alone. */
  function StampModel(sm: SpiceModel, t: BlockType, c: Coord): (r: SpiceModel)
    requires sm.kind != Unlisted
    ensures r.kind == sm.kind
  {
    match MeasureOf(sm.kind)
    case None => sm
    case Some(m) =>
      var high := sm.cnt + TileSize(t, m);
      sm.(cnt := high, gridIndexLow := sm.gridIndexLow[c := sm.cnt], gridIndexHigh := sm.gridIndexHigh[c := high])
  }

  /** A model after the tiles of `order` have been stamped in turn. */
  function StampAll(sm: SpiceModel, grid: seq<seq<GridTile>>, order: seq<Coord>): (r: SpiceModel)
    requires sm.kind != Unlisted && AllInGrid(grid, order)
    ensures r.kind == sm.kind
  {
    if order == [] then sm
    else StampModel(StampAll(sm, grid, order[..|order| - 1]), TypeAt(grid, order[|order| - 1]), order[|order| - 1])
  }

  /** Stamping a longer order is stamping its prefix and then its suffix. */
  lemma {:induction false} StampAllAppend(sm: SpiceModel, grid: seq<seq<GridTile>>, s: seq<Coord>, t: seq<Coord>)
    requires sm.kind != Unlisted && AllInGrid(grid, s) && AllInGrid(grid, t)
    ensures AllInGrid(grid, s + t)
    ensures StampAll(sm, grid, s + t) == StampAll(StampAll(sm, grid, s), grid, t)
    decreases |t|
  {
    assert AllInGrid(grid, s + t) by {
      forall j | 0 <= j < |s + t| ensures InGrid(grid, (s + t)[j]) {
        if j >= |s| { assert (s + t)[j] == t[j - |s|]; }
      }
    }
    if t == [] {
      assert s + t == s;
    } else {
      var t' := t[..|t| - 1];
      assert (s + t)[..|s + t| - 1] == s + t';
      StampAllAppend(sm, grid, s, t');
    }
  }

  /** A counting model's counter advances by the total of its measure. */
  lemma {:induction false} StampAllCount(sm: SpiceModel, grid: seq<seq<GridTile>>, order: seq<Coord>)
    requires sm.kind != Unlisted && MeasureOf(sm.kind).Some? && AllInGrid(grid, order)
    ensures StampAll(sm, grid, order).cnt == sm.cnt + Total(grid, order, MeasureOf(sm.kind).value)
    decreases |order|
  {
    if order != [] {
      StampAllCount(sm, grid, order[..|order| - 1]);
    }
  }

  /** Tiles off the order keep their old table entries. */
  lemma {:induction false} StampAllOutside(sm: SpiceModel, grid: seq<seq<GridTile>>, order: seq<Coord>, c: Coord)
    requires sm.kind != Unlisted && AllInGrid(grid, order) && c !in order
    ensures MapGet(StampAll(sm, grid, order).gridIndexLow, c) == MapGet(sm.gridIndexLow, c)
    ensures MapGet(StampAll(sm, grid, order).gridIndexHigh, c) == MapGet(sm.gridIndexHigh, c)
    decreases |order|
  {
    if order != [] {
      var k := |order| - 1;
      assert c != order[k];
      assert c !in order[..k];
      StampAllOutside(sm, grid, order[..k], c);
    }
  }

  /** Along a visit order without repeats, a counting model records for the
      `j`-th tile the counter value before and after that tile's visit. */
  lemma {:induction false} StampAllRangeAt(sm: SpiceModel, grid: seq<seq<GridTile>>, order: seq<Coord>, j: nat)
    requires sm.kind != Unlisted && MeasureOf(sm.kind).Some? && AllInGrid(grid, order) && Distinct(order)
    requires j < |order|
    ensures order[j] in StampAll(sm, grid, order).gridIndexLow
    ensures order[j] in StampAll(sm, grid, order).gridIndexHigh
    ensures StampAll(sm, grid, order).gridIndexLow[order[j]] == sm.cnt + Total(grid, order[..j], MeasureOf(sm.kind).value)
    ensures StampAll(sm, grid, order).gridIndexHigh[order[j]] == sm.cnt + Total(grid, order[..j + 1], MeasureOf(sm.kind).value)
    decreases |order|
  {
    var k := |order| - 1;
    if j < k {
      assert Distinct(order[..k]) by { DistinctPrefix(order, k); }
      StampAllRangeAt(sm, grid, order[..k], j);
      StampAllRangeKept(sm, grid, order, j);
    } else {
      assert order[..j + 1] == order;
      StampAllRangeLast(sm, grid, order);
    }
  }

  /** Visiting one more tile leaves the range of an earlier visit alone. */
  lemma StampAllRangeKept(sm: SpiceModel, grid: seq<seq<GridTile>>, order: seq<Coord>, j: nat)
    requires sm.kind != Unlisted && MeasureOf(sm.kind).Some? && AllInGrid(grid, order)
    requires j < |order| - 1 && order[j] != order[|order| - 1]
    requires order[j] in StampAll(sm, grid, order[..|order| - 1]).gridIndexLow
    requires order[j] in StampAll(sm, grid, order[..|order| - 1]).gridIndexHigh
    requires StampAll(sm, grid, order[..|order| - 1]).gridIndexLow[order[j]]
             == sm.cnt + Total(grid, order[..|order| - 1][..j], MeasureOf(sm.kind).value)
    requires StampAll(sm, grid, order[..|order| - 1]).gridIndexHigh[order[j]]
             == sm.cnt + Total(grid, order[..|order| - 1][..j + 1], MeasureOf(sm.kind).value)
    ensures order[j] in StampAll(sm, grid, order).gridIndexLow
    ensures order[j] in StampAll(sm, grid, order).gridIndexHigh
    ensures StampAll(sm, grid, order).gridIndexLow[order[j]] == sm.cnt + Total(grid, order[..j], MeasureOf(sm.kind).value)
    ensures StampAll(sm, grid, order).gridIndexHigh[order[j]] == sm.cnt + Total(grid, order[..j + 1], MeasureOf(sm.kind).value)
  {
    var k := |order| - 1;
    var front := order[..k];
    var c := order[k];
    StampAllLast(sm, grid, order);
    var prev, r := StampAll(sm, grid, front), StampAll(sm, grid, order);
    StampModelKeeps(prev, TypeAt(grid, c), c, order[j]);
    assert front[..j] == order[..j] && front[..j + 1] == order[..j + 1];
    var m := MeasureOf(sm.kind).value;
    assert r.gridIndexLow[order[j]] == prev.gridIndexLow[order[j]] == sm.cnt + Total(grid, order[..j], m);
    assert r.gridIndexHigh[order[j]] == prev.gridIndexHigh[order[j]] == sm.cnt + Total(grid, order[..j + 1], m);
  }

  /** The last tile of an order is stamped after all the others. */
  lemma StampAllLast(sm: SpiceModel, grid: seq<seq<GridTile>>, order: seq<Coord>)
    requires sm.kind != Unlisted && AllInGrid(grid, order) && |order| > 0
    ensures AllInGrid(grid, order[..|order| - 1]) && InGrid(grid, order[|order| - 1])
    ensures StampAll(sm, grid, order)
            == StampModel(StampAll(sm, grid, order[..|order| - 1]), TypeAt(grid, order[|order| - 1]), order[|order| - 1])
  {
  }

  /** Stamping tile `c` leaves every other tile's range as it was. */
  lemma StampModelKeeps(sm: SpiceModel, t: BlockType, c: Coord, d: Coord)
    requires sm.kind != Unlisted && d != c
    ensures d in StampModel(sm, t, c).gridIndexLow <==> d in sm.gridIndexLow
    ensures d in StampModel(sm, t, c).gridIndexHigh <==> d in sm.gridIndexHigh
    ensures d in sm.gridIndexLow ==> StampModel(sm, t, c).gridIndexLow[d] == sm.gridIndexLow[d]
    ensures d in sm.gridIndexHigh ==> StampModel(sm, t, c).gridIndexHigh[d] == sm.gridIndexHigh[d]
  {
  }

  /** The last visit's range starts where the earlier visits' total ends. */
  lemma StampAllRangeLast(sm: SpiceModel, grid: seq<seq<GridTile>>, order: seq<Coord>)
    requires sm.kind != Unlisted && MeasureOf(sm.kind).Some? && AllInGrid(grid, order) && |order| > 0
    ensures order[|order| - 1] in StampAll(sm, grid, order).gridIndexLow
    ensures order[|order| - 1] in StampAll(sm, grid, order).gridIndexHigh
    ensures StampAll(sm, grid, order).gridIndexLow[order[|order| - 1]]
            == sm.cnt + Total(grid, order[..|order| - 1], MeasureOf(sm.kind).value)
    ensures StampAll(sm, grid, order).gridIndexHigh[order[|order| - 1]]
            == sm.cnt + Total(grid, order, MeasureOf(sm.kind).value)
  {
    var k := |order| - 1;
    var front := order[..k];
    var m := MeasureOf(sm.kind).value;
    var prev := StampAll(sm, grid, front);
    var r := StampAll(sm, grid, order);
    var c := order[k];
    assert r == StampModel(prev, TypeAt(grid, c), c);
    StampAllCount(sm, grid, front);
    assert r.cnt == prev.cnt + TileSize(TypeAt(grid, c), m);
    assert order[..k + 1] == order;
    TotalStep(grid, order, k, m);
  }

  lemma DistinctPrefix(s: seq<Coord>, k: nat)
    requires Distinct(s) && k <= |s|
    ensures Distinct(s[..k])
  {
  }

  /** A visit's range depends only on the order up to that visit. */
  lemma RangeOfPrefix(grid: seq<seq<GridTile>>, order: seq<Coord>, start: int, j: nat, k: nat, m: Measure)
    requires AllInGrid(grid, order) && j < k <= |order|
    ensures AllInGrid(grid, order[..k])
    ensures RangeOf(grid, order[..k], start, j, m) == RangeOf(grid, order, start, j, m)
  {
    assert order[..k][..j] == order[..j] && order[..k][..j + 1] == order[..j + 1];
  }

  /** The value a table holds for `c`, or `None`. */
  function MapGet(mp: map<Coord, int>, c: Coord): (v: Option<int>)
    ensures v.Some? <==> c in mp
  {
    if c in mp then Some(mp[c]) else None
  }

  /** For an SRAM or scan-chain model whose counter starts where the
      memory-bit counter starts, each visited tile's entry in the model's
      tables is the range the memory organisation gives that tile. */
  lemma ModelRangeIsTileRange(sm: SpiceModel, grid: seq<seq<GridTile>>, order: seq<Coord>, j: nat)
    requires sm.kind != Unlisted && MeasureOf(sm.kind).Some? && AllInGrid(grid, order) && Distinct(order)
    requires j < |order|
    ensures order[j] in StampAll(sm, grid, order).gridIndexLow && order[j] in StampAll(sm, grid, order).gridIndexHigh
    ensures StampAll(sm, grid, order).gridIndexLow[order[j]] == RangeOf(grid, order, sm.cnt, j, MeasureOf(sm.kind).value).0
    ensures StampAll(sm, grid, order).gridIndexHigh[order[j]] == RangeOf(grid, order, sm.cnt, j, MeasureOf(sm.kind).value).1
  {
    StampAllRangeAt(sm, grid, order, j);
    RangeOfIs(grid, order, sm.cnt, j, MeasureOf(sm.kind).value);
  }

  /** `compact_verilog_update_one_spice_model_grid_index`: every model in
      the list is stamped for the tile `c`, in list order.  An unlisted model
      type is a fatal error in the source and a precondition here. */
  method UpdateOneSpiceModelGridIndex(models: array<SpiceModel>, t: BlockType, c: Coord)
    requires forall i :: 0 <= i < models.Length ==> models[i].kind != Unlisted
    modifies models
    ensures forall i :: 0 <= i < models.Length ==> models[i] == StampModel(old(models[i]), t, c)
  {
    var i := 0;
    while i < models.Length
      invariant 0 <= i <= models.Length
      invariant forall k :: 0 <= k < i ==> models[k] == StampModel(old(models[k]), t, c)
      invariant forall k :: i <= k < models.Length ==> models[k] == old(models[k])
    {
      var sm := models[i];
      if sm.kind == Scff || sm.kind == Sram {
        var stamped := sm.cnt;
        var high := stamped + t.capacity * t.numConfBits;
        models[i] := sm.(gridIndexLow := sm.gridIndexLow[c := stamped], gridIndexHigh := sm.gridIndexHigh[c := high], cnt := high);
      } else if sm.kind == Iopad {
        var stamped := sm.cnt;
        var high := stamped + t.capacity * t.numIopads;
        models[i] := sm.(gridIndexLow := sm.gridIndexLow[c := stamped], gridIndexHigh := sm.gridIndexHigh[c := high], cnt := high);
      }
      i := i + 1;
    }
  }

  // ---------------------------------------------------------------------
  // The memory organisation (t_sram_orgz_info)
  // ---------------------------------------------------------------------

  /** The memory organisation as a value: the memory-bit, bit-line and
      word-line counters, and the per-tile tables of reserved bits and of
      the `[lsb, msb)` range, keyed by tile. */
  datatype OrgzState = OrgzState(numMemBit: int, numBl: int, numWl: int,
                                 reserved: imap<Coord, int>, lsb: imap<Coord, int>, msb: imap<Coord, int>)

  /** The visit of one tile `c` of type `t`
      (`compact_verilog_update_sram_orgz_info_grid_index`): the tile receives
      `[numMemBit, numMemBit + capacity * conf_bits)` and its type's reserved
      count, and the memory-bit, bit-line and word-line counters all move to
      the end of that range. */
  function StampCell(s: OrgzState, t: BlockType, c: Coord): OrgzState {
    var high := s.numMemBit + TileSize(t, ConfBits);
    OrgzState(high, high, high, s.reserved[c := t.numReservedConfBits], s.lsb[c := s.numMemBit], s.msb[c := high])
  }

  /** The memory organisation after the tiles of `P` were visited in turn. */
  function AllocateAlong(s: OrgzState, grid: seq<seq<GridTile>>, P: seq<Coord>): OrgzState
    requires AllInGrid(grid, P)
  {
    if P == [] then s
    else StampCell(AllocateAlong(s, grid, P[..|P| - 1]), TypeAt(grid, P[|P| - 1]), P[|P| - 1])
  }

  /** The memory-bit counter advances by the total of the visited tiles, and
      once a tile was visited the bit-line and word-line counters equal it;
      an empty visit changes nothing. */
  lemma {:induction false} AllocateAlongCounters(s: OrgzState, grid: seq<seq<GridTile>>, P: seq<Coord>)
    requires AllInGrid(grid, P)
    ensures AllocateAlong(s, grid, P).numMemBit == s.numMemBit + Total(grid, P, ConfBits)
    ensures P == [] ==> AllocateAlong(s, grid, P) == s
    ensures P != [] ==> AllocateAlong(s, grid, P).numBl == AllocateAlong(s, grid, P).numMemBit
                        && AllocateAlong(s, grid, P).numWl == AllocateAlong(s, grid, P).numMemBit
    decreases |P|
  {
    if P != [] {
      AllocateAlongCounters(s, grid, P[..|P| - 1]);
    }
  }

  /** A tile off the visit keeps its three table entries (or their absence). */
  lemma {:induction false} AllocateAlongOutside(s: OrgzState, grid: seq<seq<GridTile>>, P: seq<Coord>, c: Coord)
    requires AllInGrid(grid, P) && c !in P
    ensures MapGetI(AllocateAlong(s, grid, P).lsb, c) == MapGetI(s.lsb, c)
    ensures MapGetI(AllocateAlong(s, grid, P).msb, c) == MapGetI(s.msb, c)
    ensures MapGetI(AllocateAlong(s, grid, P).reserved, c) == MapGetI(s.reserved, c)
    decreases |P|
  {
    if P != [] {
      var k := |P| - 1;
      assert c != P[k];
      assert c !in P[..k];
      AllocateAlongOutside(s, grid, P[..k], c);
    }
  }

  /** Along a visit without repeats, the `j`-th tile holds the counter
      values before and after its visit, and its type's reserved count. */
  lemma {:induction false} AllocateAlongAt(s: OrgzState, grid: seq<seq<GridTile>>, P: seq<Coord>, j: nat)
    requires AllInGrid(grid, P) && Distinct(P) && j < |P|
    ensures P[j] in AllocateAlong(s, grid, P).lsb && P[j] in AllocateAlong(s, grid, P).msb
    ensures P[j] in AllocateAlong(s, grid, P).reserved
    ensures AllocateAlong(s, grid, P).lsb[P[j]] == s.numMemBit + Total(grid, P[..j], ConfBits)
    ensures AllocateAlong(s, grid, P).msb[P[j]] == s.numMemBit + Total(grid, P[..j + 1], ConfBits)
    ensures AllocateAlong(s, grid, P).reserved[P[j]] == TypeAt(grid, P[j]).numReservedConfBits
    decreases |P|
  {
    var k := |P| - 1;
    var front := P[..k];
    var prev := AllocateAlong(s, grid, front);
    var r := AllocateAlong(s, grid, P);
    var c := P[k];
    assert r == StampCell(prev, TypeAt(grid, c), c);
    if j < k {
      var d := P[j];
      assert d == front[j] && d != c;
      assert Distinct(front) by { DistinctPrefix(P, k); }
      AllocateAlongAt(s, grid, front, j);
      assert front[..j] == P[..j] && front[..j + 1] == P[..j + 1];
    } else {
      assert P[..j] == front;
      AllocateAlongCounters(s, grid, front);
      TotalStep(grid, P, j, ConfBits);
    }
  }

  /** Visiting one more tile is one more `StampCell`. */
  lemma ExtendAllocate(s: OrgzState, grid: seq<seq<GridTile>>, P: seq<Coord>, c: Coord)
    requires AllInGrid(grid, P) && InGrid(grid, c)
    ensures AllInGrid(grid, P + [c])
    ensures AllocateAlong(s, grid, P + [c]) == StampCell(AllocateAlong(s, grid, P), TypeAt(grid, c), c)
  {
    var Q := P + [c];
    assert Q[..|Q| - 1] == P;
    forall j | 0 <= j < |Q| ensures InGrid(grid, Q[j]) {
      if j < |P| { assert Q[j] == P[j]; }
    }
  }

  /** The value an infinite map holds for `c`, or `None`. */
  function MapGetI(mp: imap<Coord, int>, c: Coord): (v: Option<int>)
    ensures v.Some? <==> c in mp
  {
    if c in mp then Some(mp[c]) else None
  }

  /** The ghost map `m` agrees with table `a` on every cell. */
  ghost predicate Mirrors(m: imap<Coord, int>, a: array2<int>)
    reads a
  {
    forall x, y {:trigger a[x, y]} :: 0 <= x < a.Length0 && 0 <= y < a.Length1 ==> Coord(x, y) in m && m[Coord(x, y)] == a[x, y]
  }

  /** The part of `t_sram_orgz_info` the allocation pass uses: the
      memory-bit counter and the bit-line / word-line counters (read and
      written in the source through `get_sram_orgz_info_*` /
      `update_sram_orgz_info_*`, fields here), and the per-tile tables of
      reserved bits and of the `[lsb, msb)` range. Each table has a ghost
      mirror keyed by tile, so that the state can be read as a value. */
  class SramOrgzInfo {
    var numMemBit: int
    var numBl: int
    var numWl: int
    const gridReservedConfBits: array2<int>
    const gridConfBitsLsb: array2<int>
    const gridConfBitsMsb: array2<int>
    ghost var reserved: imap<Coord, int>
    ghost var lsb: imap<Coord, int>
    ghost var msb: imap<Coord, int>

    /** Three separate tables of the same dimensions, each mirrored. */
    ghost predicate Valid()
      reads this, gridReservedConfBits, gridConfBitsLsb, gridConfBitsMsb
    {
      && gridReservedConfBits != gridConfBitsLsb
      && gridReservedConfBits != gridConfBitsMsb
      && gridConfBitsLsb != gridConfBitsMsb
      && gridReservedConfBits.Length0 == gridConfBitsLsb.Length0 == gridConfBitsMsb.Length0
      && gridReservedConfBits.Length1 == gridConfBitsLsb.Length1 == gridConfBitsMsb.Length1
      && Mirrors(reserved, gridReservedConfBits)
      && Mirrors(lsb, gridConfBitsLsb)
      && Mirrors(msb, gridConfBitsMsb)
    }

    /** The state as a value. */
    ghost function View(): OrgzState
      reads this
    {
      OrgzState(numMemBit, numBl, numWl, reserved, lsb, msb)
    }

    /** Tables for a `width x height` grid, filled with zeros, and counters
        at the given values. */
    constructor (width: nat, height: nat, memBit: int, bl: int, wl: int)
      ensures Valid()
      ensures gridConfBitsLsb.Length0 == width && gridConfBitsLsb.Length1 == height
      ensures numMemBit == memBit && numBl == bl && numWl == wl
    {
      numMemBit := memBit;
      numBl := bl;
      numWl := wl;
      gridReservedConfBits := new int[width, height]((i, j) => 0);
      gridConfBitsLsb := new int[width, height]((i, j) => 0);
      gridConfBitsMsb := new int[width, height]((i, j) => 0);
      reserved := imap c: Coord | 0 <= c.x < width && 0 <= c.y < height :: 0;
      lsb := imap c: Coord | 0 <= c.x < width && 0 <= c.y < height :: 0;
      msb := imap c: Coord | 0 <= c.x < width && 0 <= c.y < height :: 0;
    }

    /** `compact_verilog_update_sram_orgz_info_grid_index` for tile
        `(x, y)` of type `t`. */
    method StampGridIndex(t: BlockType, x: int, y: int)
      requires Valid() && 0 <= x < gridConfBitsLsb.Length0 && 0 <= y < gridConfBitsLsb.Length1
      modifies this, gridReservedConfBits, gridConfBitsLsb, gridConfBitsMsb
      ensures Valid()
      ensures View() == StampCell(old(View()), t, Coord(x, y))
    {
      var curNumConfBits := numMemBit;
      gridReservedConfBits[x, y] := t.numReservedConfBits;
      gridConfBitsLsb[x, y] := curNumConfBits;
      gridConfBitsMsb[x, y] := curNumConfBits;
      gridConfBitsMsb[x, y] := gridConfBitsMsb[x, y] + t.capacity * t.numConfBits;
      curNumConfBits := gridConfBitsMsb[x, y];
      numMemBit := curNumConfBits;
      numBl := curNumConfBits;
      numWl := curNumConfBits;
      reserved := reserved[Coord(x, y) := t.numReservedConfBits];
      lsb := lsb[Coord(x, y) := old(numMemBit)];
      msb := msb[Coord(x, y) := curNumConfBits];
      forall i, j | 0 <= i < gridConfBitsLsb.Length0 && 0 <= j < gridConfBitsLsb.Length1
        ensures Coord(i, j) in reserved && reserved[Coord(i, j)] == gridReservedConfBits[i, j]
        ensures Coord(i, j) in lsb && lsb[Coord(i, j)] == gridConfBitsLsb[i, j]
        ensures Coord(i, j) in msb && msb[Coord(i, j)] == gridConfBitsMsb[i, j]
      {
        if (i, j) != (x, y) {
          assert gridReservedConfBits[i, j] == old(gridReservedConfBits[i, j]);
          assert gridConfBitsLsb[i, j] == old(gridConfBitsLsb[i, j]);
          assert gridConfBitsMsb[i, j] == old(gridConfBitsMsb[i, j]);
        }
      }
    }

    /** The three counters set, as restoring a snapshot of the memory
        organisation does; the tables are left alone. */
    method SetCounters(memBit: int, bl: int, wl: int)
      requires Valid()
      modifies this
      ensures Valid()
      ensures View() == old(View()).(numMemBit := memBit, numBl := bl, numWl := wl)
    {
      numMemBit := memBit;
      numBl := bl;
      numWl := wl;
    }
  }

  /** The memory organisation's tables have one cell per grid tile. */
  predicate Covers(info: SramOrgzInfo, grid: seq<seq<GridTile>>) {
    && |grid| == info.gridConfBitsLsb.Length0
    && (forall x :: 0 <= x < |grid| ==> |grid[x]| == info.gridConfBitsLsb.Length1)
  }

  /** No model in the list has a type the update does not list. */
  predicate AllListed(models0: seq<SpiceModel>) {
    forall i :: 0 <= i < |models0| ==> models0[i].kind != Unlisted
  }

  /** Each model of the list stamped along `P`. */
  function StampEach(models0: seq<SpiceModel>, grid: seq<seq<GridTile>>, P: seq<Coord>): (r: seq<SpiceModel>)
    requires AllListed(models0) && AllInGrid(grid, P)
    ensures |r| == |models0|
    ensures forall i :: 0 <= i < |r| ==> r[i] == StampAll(models0[i], grid, P)
  {
    seq(|models0|, i requires 0 <= i < |models0| => StampAll(models0[i], grid, P))
  }

  /** Visiting one more tile stamps a model once more. */
  lemma ExtendStamp(sm: SpiceModel, grid: seq<seq<GridTile>>, P: seq<Coord>, c: Coord)
    requires sm.kind != Unlisted && AllInGrid(grid, P) && AllInGrid(grid, P + [c])
    ensures StampAll(sm, grid, P + [c]) == StampModel(StampAll(sm, grid, P), TypeAt(grid, c), c)
  {
    assert (P + [c])[..|P|] == P;
  }

  // ---------------------------------------------------------------------
  // The allocation pass as values
  // ---------------------------------------------------------------------

  /** Every model of the list stamped for tile `c` of type `t`, as
      `update_one_spice_model_grid_index` does to each list entry. */
  function StampModels(ms: seq<SpiceModel>, t: BlockType, c: Coord): (r: seq<SpiceModel>)
    requires AllListed(ms)
    ensures |r| == |ms| && AllListed(r)
    ensures forall i :: 0 <= i < |r| ==> r[i] == StampModel(ms[i], t, c)
  {
    seq(|ms|, i requires 0 <= i < |ms| => StampModel(ms[i], t, c))
  }

  /** What the pass has computed so far: the memory organisation and the
      list of spice models. */
  datatype PassState = PassState(orgz: OrgzState, models: seq<SpiceModel>)

  /** One visit of tile `c`: the spice-model update, then the memory
      organisation update. */
  function VisitValue(st: PassState, grid: seq<seq<GridTile>>, c: Coord): (r: PassState)
    requires InGrid(grid, c) && AllListed(st.models)
    ensures AllListed(r.models)
  {
    PassState(StampCell(st.orgz, TypeAt(grid, c), c), StampModels(st.models, TypeAt(grid, c), c))
  }

  /** The pass state after the tiles of `P` were visited in turn. */
  function PassAlong(st: PassState, grid: seq<seq<GridTile>>, P: seq<Coord>): (r: PassState)
    requires AllListed(st.models) && AllInGrid(grid, P)
    ensures AllListed(r.models)
  {
    PassState(AllocateAlong(st.orgz, grid, P), StampEach(st.models, grid, P))
  }

  /** Visiting one more tile is one more `VisitValue`. */
  lemma PassAlongExtend(st: PassState, grid: seq<seq<GridTile>>, P: seq<Coord>, c: Coord)
    requires AllListed(st.models) && AllInGrid(grid, P) && InGrid(grid, c)
    ensures AllInGrid(grid, P + [c])
    ensures PassAlong(st, grid, P + [c]) == VisitValue(PassAlong(st, grid, P), grid, c)
  {
    ExtendAllocate(st.orgz, grid, P, c);
    var t := TypeAt(grid, c);
    var after := StampEach(st.models, grid, P + [c]);
    var stepped := StampModels(StampEach(st.models, grid, P), t, c);
    forall i | 0 <= i < |after| ensures after[i] == stepped[i] {
      ExtendStamp(st.models[i], grid, P, c);
    }
  }

  /** Visiting no tile changes nothing. */
  lemma PassAlongEmpty(st: PassState, grid: seq<seq<GridTile>>)
    requires AllListed(st.models)
    ensures PassAlong(st, grid, []) == st
  {
    assert StampEach(st.models, grid, []) == st.models;
  }

  /** Visiting `P` and then `Q` is visiting `P + Q`. */
  lemma {:induction false} PassAlongAppend(st: PassState, grid: seq<seq<GridTile>>, P: seq<Coord>, Q: seq<Coord>)
    requires AllListed(st.models) && AllInGrid(grid, P) && AllInGrid(grid, Q)
    ensures AllInGrid(grid, P + Q)
    ensures PassAlong(PassAlong(st, grid, P), grid, Q) == PassAlong(st, grid, P + Q)
    decreases |Q|
  {
    if Q == [] {
      assert P + Q == P;
      PassAlongEmpty(PassAlong(st, grid, P), grid);
    } else {
      var front := Q[..|Q| - 1];
      var c := Q[|Q| - 1];
      assert Q == front + [c];
      assert AllInGrid(grid, front);
      PassAlongAppend(st, grid, P, front);
      assert P + Q == (P + front) + [c];
      PassAlongExtend(PassAlong(st, grid, P), grid, front, c);
      PassAlongExtend(st, grid, P + front, c);
    }
  }

  /** The state before tile `(x, y)` of border row `y`: the tiles
      `(1, y) .. (x - 1, y)` visited from `st`. */
  function RowPass(st: PassState, grid: seq<seq<GridTile>>, nx: int, ny: int, y: int, x: int): (r: PassState)
    requires GridShape(grid, nx, ny) && 0 <= y <= ny + 1 && 1 <= x <= nx + 1 && AllListed(st.models)
    ensures AllListed(r.models)
    decreases x
  {
    if x == 1 then st else VisitValue(RowPass(st, grid, nx, ny, y, x - 1), grid, Coord(x - 1, y))
  }

  /** The state before tile `(x, y)` of border column `x`. */
  function ColPass(st: PassState, grid: seq<seq<GridTile>>, nx: int, ny: int, x: int, y: int): (r: PassState)
    requires GridShape(grid, nx, ny) && 0 <= x <= nx + 1 && 1 <= y <= ny + 1 && AllListed(st.models)
    ensures AllListed(r.models)
    decreases y
  {
    if y == 1 then st else VisitValue(ColPass(st, grid, nx, ny, x, y - 1), grid, Coord(x, y - 1))
  }

  /** The inner core loop at tile `(x, y)`: an allocated tile is visited,
      any other tile is skipped. */
  function CoreVisit(st: PassState, grid: seq<seq<GridTile>>, nx: int, ny: int, x: int, y: int): (r: PassState)
    requires GridShape(grid, nx, ny) && 1 <= x <= nx && 1 <= y <= ny && AllListed(st.models)
    ensures AllListed(r.models)
  {
    if grid[x][y].blockType.isEmpty then st
    else if 0 < grid[x][y].offset then st
    else VisitValue(st, grid, Coord(x, y))
  }

  /** The state before tile `(x, y)` of core column `x`, from `st` at the
      column's start. */
  function ColumnPass(st: PassState, grid: seq<seq<GridTile>>, nx: int, ny: int, x: int, y: int): (r: PassState)
    requires GridShape(grid, nx, ny) && 1 <= x <= nx && 1 <= y <= ny + 1 && AllListed(st.models)
    ensures AllListed(r.models)
    decreases y
  {
    if y == 1 then st else CoreVisit(ColumnPass(st, grid, nx, ny, x, y - 1), grid, nx, ny, x, y - 1)
  }

  /** The state at the start of core column `x`. */
  function CoreBefore(st: PassState, grid: seq<seq<GridTile>>, nx: int, ny: int, x: int): (r: PassState)
    requires GridShape(grid, nx, ny) && 1 <= x <= nx + 1 && AllListed(st.models)
    ensures AllListed(r.models)
    decreases x
  {
    if x == 1 then st else ColumnPass(CoreBefore(st, grid, nx, ny, x - 1), grid, nx, ny, x - 1, ny + 1)
  }

  /** The row loop visits `RowUpTo` in order. */
  lemma {:induction false} RowPassAlong(st: PassState, grid: seq<seq<GridTile>>, nx: int, ny: int, y: int, x: int)
    requires GridShape(grid, nx, ny) && 0 <= y <= ny + 1 && 1 <= x <= nx + 1 && AllListed(st.models)
    ensures AllInGrid(grid, RowUpTo(y, x))
    ensures RowPass(st, grid, nx, ny, y, x) == PassAlong(st, grid, RowUpTo(y, x))
    decreases x
  {
    RowInGrid(grid, nx, ny, y, x);
    if x == 1 {
      PassAlongEmpty(st, grid);
    } else {
      RowPassAlong(st, grid, nx, ny, y, x - 1);
      assert RowUpTo(y, x) == RowUpTo(y, x - 1) + [Coord(x - 1, y)];
      PassAlongExtend(st, grid, RowUpTo(y, x - 1), Coord(x - 1, y));
    }
  }

  lemma RowInGrid(grid: seq<seq<GridTile>>, nx: int, ny: int, y: int, x: int)
    requires GridShape(grid, nx, ny) && 0 <= y <= ny + 1 && 1 <= x <= nx + 2
    ensures AllInGrid(grid, RowUpTo(y, x))
  {
  }

  lemma ColInGrid(grid: seq<seq<GridTile>>, nx: int, ny: int, x: int, y: int)
    requires GridShape(grid, nx, ny) && 0 <= x <= nx + 1 && 1 <= y <= ny + 2
    ensures AllInGrid(grid, ColUpTo(x, y))
  {
  }

  /** The column loop visits `ColUpTo` in order. */
  lemma {:induction false} ColPassAlong(st: PassState, grid: seq<seq<GridTile>>, nx: int, ny: int, x: int, y: int)
    requires GridShape(grid, nx, ny) && 0 <= x <= nx + 1 && 1 <= y <= ny + 1 && AllListed(st.models)
    ensures AllInGrid(grid, ColUpTo(x, y))
    ensures ColPass(st, grid, nx, ny, x, y) == PassAlong(st, grid, ColUpTo(x, y))
    decreases y
  {
    ColInGrid(grid, nx, ny, x, y);
    if y == 1 {
      PassAlongEmpty(st, grid);
    } else {
      ColPassAlong(st, grid, nx, ny, x, y - 1);
      assert ColUpTo(x, y) == ColUpTo(x, y - 1) + [Coord(x, y - 1)];
      PassAlongExtend(st, grid, ColUpTo(x, y - 1), Coord(x, y - 1));
    }
  }

  /** The inner core loop visits the allocated tiles of its column. */
  lemma {:induction false} ColumnPassAlong(st: PassState, grid: seq<seq<GridTile>>, nx: int, ny: int, x: int, y: int)
    requires GridShape(grid, nx, ny) && 1 <= x <= nx && 1 <= y <= ny + 1 && AllListed(st.models)
    ensures AllInGrid(grid, ColumnUpTo(grid, nx, ny, x, y))
    ensures ColumnPass(st, grid, nx, ny, x, y) == PassAlong(st, grid, ColumnUpTo(grid, nx, ny, x, y))
    decreases y
  {
    var P := ColumnUpTo(grid, nx, ny, x, y);
    ColumnUpToMembers(grid, nx, ny, x, y);
    forall j | 0 <= j < |P| ensures InGrid(grid, P[j]) {
      assert P[j] in P;
    }
    if y == 1 {
      PassAlongEmpty(st, grid);
    } else {
      var front := ColumnUpTo(grid, nx, ny, x, y - 1);
      ColumnPassAlong(st, grid, nx, ny, x, y - 1);
      if CoreTileAllocated(grid[x][y - 1]) {
        assert P == front + [Coord(x, y - 1)];
        PassAlongExtend(st, grid, front, Coord(x, y - 1));
      } else {
        assert P == front;
      }
    }
  }

  /** Every tile of `CoreUpTo` lies on the grid. */
  lemma CoreUpToInGrid(grid: seq<seq<GridTile>>, nx: int, ny: int, x: int)
    requires GridShape(grid, nx, ny) && 1 <= x <= nx + 1
    ensures AllInGrid(grid, CoreUpTo(grid, nx, ny, x))
  {
    var P := CoreUpTo(grid, nx, ny, x);
    CoreUpToMembers(grid, nx, ny, x);
    forall j | 0 <= j < |P| ensures InGrid(grid, P[j]) {
      assert P[j] in P;
    }
  }

  /** One more core column: from the state at the start of column `x - 1`
      to the state at the start of column `x`. */
  lemma CoreBeforeStep(st: PassState, grid: seq<seq<GridTile>>, nx: int, ny: int, x: int)
    requires GridShape(grid, nx, ny) && 2 <= x <= nx + 1 && AllListed(st.models)
    requires AllInGrid(grid, CoreUpTo(grid, nx, ny, x - 1))
    requires CoreBefore(st, grid, nx, ny, x - 1) == PassAlong(st, grid, CoreUpTo(grid, nx, ny, x - 1))
    ensures AllInGrid(grid, CoreUpTo(grid, nx, ny, x))
    ensures CoreBefore(st, grid, nx, ny, x) == PassAlong(st, grid, CoreUpTo(grid, nx, ny, x))
  {
    var front := CoreUpTo(grid, nx, ny, x - 1);
    var col := ColumnUpTo(grid, nx, ny, x - 1, ny + 1);
    var mid := PassAlong(st, grid, front);
    ColumnPassAlong(mid, grid, nx, ny, x - 1, ny + 1);
    PassAlongAppend(st, grid, front, col);
  }

  /** The core loops visit `CoreUpTo` in order. */
  lemma {:induction false} CoreBeforeAlong(st: PassState, grid: seq<seq<GridTile>>, nx: int, ny: int, x: int)
    requires GridShape(grid, nx, ny) && 1 <= x <= nx + 1 && AllListed(st.models)
    ensures AllInGrid(grid, CoreUpTo(grid, nx, ny, x))
    ensures CoreBefore(st, grid, nx, ny, x) == PassAlong(st, grid, CoreUpTo(grid, nx, ny, x))
    decreases x
  {
    if x == 1 {
      PassAlongEmpty(st, grid);
    } else {
      CoreBeforeAlong(st, grid, nx, ny, x - 1);
      CoreBeforeStep(st, grid, nx, ny, x);
    }
  }

  // ---------------------------------------------------------------------
  // The allocation pass on the arrays
  // ---------------------------------------------------------------------

  /** One visit of the pass: the spice-model update followed by the memory
      organisation update for tile `c`. */
  method VisitTile(info: SramOrgzInfo, models: array<SpiceModel>, grid: seq<seq<GridTile>>, c: Coord, ghost st: PassState)
    requires info.Valid() && Covers(info, grid) && InGrid(grid, c) && AllListed(st.models)
    requires PassState(info.View(), models[..]) == st
    modifies info, info.gridReservedConfBits, info.gridConfBitsLsb, info.gridConfBitsMsb, models
    ensures info.Valid()
    ensures PassState(info.View(), models[..]) == VisitValue(st, grid, c)
  {
    var t := TypeAt(grid, c);
    UpdateOneSpiceModelGridIndex(models, t, c);
    info.StampGridIndex(t, c.x, c.y);
    assert models[..] == StampModels(st.models, t, c);
  }

  /** The inner core loop for column `x`: tiles `y = 1 .. ny`; EMPTY tiles
      and continuation tiles are skipped. */
  method AllocateCoreColumn(info: SramOrgzInfo, models: array<SpiceModel>, grid: seq<seq<GridTile>>, nx: int, ny: int, x: int)
    requires GridShape(grid, nx, ny) && 1 <= x <= nx
    requires CoreColumn(grid, nx, ny, x)
    requires info.Valid() && Covers(info, grid) && AllListed(models[..])
    modifies info, info.gridReservedConfBits, info.gridConfBitsLsb, info.gridConfBitsMsb, models
    ensures info.Valid()
    ensures PassState(info.View(), models[..]) == ColumnPass(PassState(old(info.View()), old(models[..])), grid, nx, ny, x, ny + 1)
  {
    ghost var st0 := PassState(info.View(), models[..]);
    var y := 1;
    while y < ny + 1
      invariant 1 <= y <= ny + 1
      invariant info.Valid()
      invariant PassState(info.View(), models[..]) == ColumnPass(st0, grid, nx, ny, x, y)
    {
      assert !grid[x][y].blockType.isIO;
      if grid[x][y].blockType.isEmpty {
      } else if 0 < grid[x][y].offset {
      } else {
        VisitTile(info, models, grid, Coord(x, y), ColumnPass(st0, grid, nx, ny, x, y));
      }
      y := y + 1;
    }
  }

  /** The core loops of the pass: columns `x = 1 .. nx`. */
  method AllocateCore(info: SramOrgzInfo, models: array<SpiceModel>, grid: seq<seq<GridTile>>, nx: int, ny: int)
    requires GridShape(grid, nx, ny)
    requires forall x :: 1 <= x <= nx ==> CoreColumn(grid, nx, ny, x)
    requires info.Valid() && Covers(info, grid) && AllListed(models[..])
    modifies info, info.gridReservedConfBits, info.gridConfBitsLsb, info.gridConfBitsMsb, models
    ensures info.Valid()
    ensures PassState(info.View(), models[..]) == CoreBefore(PassState(old(info.View()), old(models[..])), grid, nx, ny, nx + 1)
  {
    ghost var st0 := PassState(info.View(), models[..]);
    var x := 1;
    while x < nx + 1
      invariant 1 <= x <= nx + 1
      invariant info.Valid()
      invariant PassState(info.View(), models[..]) == CoreBefore(st0, grid, nx, ny, x)
    {
      AllocateCoreColumn(info, models, grid, nx, ny, x);
      x := x + 1;
    }
  }

  /** A border row `y`: tiles `x = 1 .. nx`. */
  method AllocateRow(info: SramOrgzInfo, models: array<SpiceModel>, grid: seq<seq<GridTile>>, nx: int, ny: int, y: int)
    requires GridShape(grid, nx, ny) && (y == 0 || y == ny + 1)
    requires IORow(grid, nx, ny, y)
    requires info.Valid() && Covers(info, grid) && AllListed(models[..])
    modifies info, info.gridReservedConfBits, info.gridConfBitsLsb, info.gridConfBitsMsb, models
    ensures info.Valid()
    ensures PassState(info.View(), models[..]) == RowPass(PassState(old(info.View()), old(models[..])), grid, nx, ny, y, nx + 1)
  {
    ghost var st0 := PassState(info.View(), models[..]);
    var x := 1;
    while x < nx + 1
      invariant 1 <= x <= nx + 1
      invariant info.Valid()
      invariant PassState(info.View(), models[..]) == RowPass(st0, grid, nx, ny, y, x)
    {
      assert grid[x][y].blockType.isIO;
      VisitTile(info, models, grid, Coord(x, y), RowPass(st0, grid, nx, ny, y, x));
      x := x + 1;
    }
  }

  /** A border column `x`: tiles `y = 1 .. ny`. */
  method AllocateColumn(info: SramOrgzInfo, models: array<SpiceModel>, grid: seq<seq<GridTile>>, nx: int, ny: int, x: int)
    requires GridShape(grid, nx, ny) && (x == 0 || x == nx + 1)
    requires IOColumn(grid, nx, ny, x)
    requires info.Valid() && Covers(info, grid) && AllListed(models[..])
    modifies info, info.gridReservedConfBits, info.gridConfBitsLsb, info.gridConfBitsMsb, models
    ensures info.Valid()
    ensures PassState(info.View(), models[..]) == ColPass(PassState(old(info.View()), old(models[..])), grid, nx, ny, x, ny + 1)
  {
    ghost var st0 := PassState(info.View(), models[..]);
    var y := 1;
    while y < ny + 1
      invariant 1 <= y <= ny + 1
      invariant info.Valid()
      invariant PassState(info.View(), models[..]) == ColPass(st0, grid, nx, ny, x, y)
    {
      assert grid[x][y].blockType.isIO;
      VisitTile(info, models, grid, Coord(x, y), ColPass(st0, grid, nx, ny, x, y));
      y := y + 1;
    }
  }

  /** The four border loops: top row, right column, bottom row, left
      column. */
  method AllocateBorders(info: SramOrgzInfo, models: array<SpiceModel>, grid: seq<seq<GridTile>>, nx: int, ny: int)
    requires GridShape(grid, nx, ny)
    requires IORow(grid, nx, ny, ny + 1) && IOColumn(grid, nx, ny, nx + 1)
    requires IORow(grid, nx, ny, 0) && IOColumn(grid, nx, ny, 0)
    requires info.Valid() && Covers(info, grid) && AllListed(models[..])
    modifies info, info.gridReservedConfBits, info.gridConfBitsLsb, info.gridConfBitsMsb, models
    ensures info.Valid()
    ensures
      var st1 := PassState(old(info.View()), old(models[..]));
      var st2 := RowPass(st1, grid, nx, ny, ny + 1, nx + 1);
      var st3 := ColPass(st2, grid, nx, ny, nx + 1, ny + 1);
      var st4 := RowPass(st3, grid, nx, ny, 0, nx + 1);
      PassState(info.View(), models[..]) == ColPass(st4, grid, nx, ny, 0, ny + 1)
  {
    AllocateRow(info, models, grid, nx, ny, ny + 1);
    AllocateColumn(info, models, grid, nx, ny, nx + 1);
    AllocateRow(info, models, grid, nx, ny, 0);
    AllocateColumn(info, models, grid, nx, ny, 0);
  }

  /** The five loops of the pass, one after the other, visit
      `AllocationOrder`. */
  lemma PassLoopsFollowOrder(st0: PassState, grid: seq<seq<GridTile>>, nx: int, ny: int)
    requires GridShape(grid, nx, ny) && nx > 0 && ny > 0 && AllListed(st0.models)
    ensures
      var st1 := CoreBefore(st0, grid, nx, ny, nx + 1);
      var st2 := RowPass(st1, grid, nx, ny, ny + 1, nx + 1);
      var st3 := ColPass(st2, grid, nx, ny, nx + 1, ny + 1);
      var st4 := RowPass(st3, grid, nx, ny, 0, nx + 1);
      ColPass(st4, grid, nx, ny, 0, ny + 1) == PassAlong(st0, grid, AllocationOrder(grid, nx, ny))
  {
    var core := CoreUpTo(grid, nx, ny, nx + 1);
    var top := RowUpTo(ny + 1, nx + 1);
    var right := ColUpTo(nx + 1, ny + 1);
    var bottom := RowUpTo(0, nx + 1);
    var left := ColUpTo(0, ny + 1);
    CoreBeforeAlong(st0, grid, nx, ny, nx + 1);
    var st1 := CoreBefore(st0, grid, nx, ny, nx + 1);
    RowPassAlong(st1, grid, nx, ny, ny + 1, nx + 1);
    PassAlongAppend(st0, grid, core, top);
    var st2 := RowPass(st1, grid, nx, ny, ny + 1, nx + 1);
    ColPassAlong(st2, grid, nx, ny, nx + 1, ny + 1);
    PassAlongAppend(st0, grid, core + top, right);
    var st3 := ColPass(st2, grid, nx, ny, nx + 1, ny + 1);
    RowPassAlong(st3, grid, nx, ny, 0, nx + 1);
    PassAlongAppend(st0, grid, core + top + right, bottom);
    var st4 := RowPass(st3, grid, nx, ny, 0, nx + 1);
    ColPassAlong(st4, grid, nx, ny, 0, ny + 1);
    PassAlongAppend(st0, grid, core + top + right + bottom, left);
  }

  /** `compact_verilog_update_grid_spice_model_and_sram_orgz_info`: on a grid
      without a core nothing changes; otherwise every tile of
      `AllocationOrder` is visited in turn, each visit stamping the spice
      models and then the memory organisation. */
  method UpdateGridSpiceModelAndSramOrgzInfo(info: SramOrgzInfo, models: array<SpiceModel>,
                                             grid: seq<seq<GridTile>>, nx: int, ny: int)
    requires GridShape(grid, nx, ny) && info.Valid() && Covers(info, grid)
    requires nx > 0 && ny > 0 ==> DeviceLayout(grid, nx, ny) && AllListed(models[..])
    modifies info, info.gridReservedConfBits, info.gridConfBitsLsb, info.gridConfBitsMsb, models
    ensures info.Valid()
    ensures nx == 0 || ny == 0 ==> info.View() == old(info.View()) && models[..] == old(models[..])
    ensures nx > 0 && ny > 0 ==>
      PassState(info.View(), models[..]) == PassAlong(PassState(old(info.View()), old(models[..])), grid, AllocationOrder(grid, nx, ny))
  {
    if nx == 0 || ny == 0 {
      return;
    }
    ghost var st0 := PassState(info.View(), models[..]);
    AllocateCore(info, models, grid, nx, ny);
    AllocateBorders(info, models, grid, nx, ny);
    PassLoopsFollowOrder(st0, grid, nx, ny);
  }

  // ---------------------------------------------------------------------
  // What the allocation pass computes
  // ---------------------------------------------------------------------

  /** A model whose kind advances no counter is left as it was. */
  lemma {:induction false} StampAllIdle(sm: SpiceModel, grid: seq<seq<GridTile>>, order: seq<Coord>)
    requires sm.kind != Unlisted && MeasureOf(sm.kind).None? && AllInGrid(grid, order)
    ensures StampAll(sm, grid, order) == sm
    decreases |order|
  {
    if order != [] {
      StampAllIdle(sm, grid, order[..|order| - 1]);
    }
  }

  /** The `j`-th visited tile holds, in the memory organisation, the
      `j`-th range handed out by the memory-bit counter and its type's
      reserved count. */
  lemma PassTileRange(st: PassState, grid: seq<seq<GridTile>>, nx: int, ny: int, j: nat)
    requires GridShape(grid, nx, ny) && AllListed(st.models) && j < |AllocationOrder(grid, nx, ny)|
    ensures
      var order := AllocationOrder(grid, nx, ny);
      var r := PassAlong(st, grid, order).orgz;
      && order[j] in r.lsb && order[j] in r.msb && order[j] in r.reserved
      && r.lsb[order[j]] == RangeOf(grid, order, st.orgz.numMemBit, j, ConfBits).0
      && r.msb[order[j]] == RangeOf(grid, order, st.orgz.numMemBit, j, ConfBits).1
      && r.reserved[order[j]] == TypeAt(grid, order[j]).numReservedConfBits
  {
    var order := AllocationOrder(grid, nx, ny);
    AllocationOrderDistinct(grid, nx, ny);
    AllocateAlongAt(st.orgz, grid, order, j);
    RangeOfIs(grid, order, st.orgz.numMemBit, j, ConfBits);
  }

  /** The `j`-th range spelled out. */
  lemma RangeOfIs(grid: seq<seq<GridTile>>, order: seq<Coord>, start: int, j: nat, m: Measure)
    requires AllInGrid(grid, order) && j < |order|
    ensures RangeOf(grid, order, start, j, m) == (start + Total(grid, order[..j], m), start + Total(grid, order[..j + 1], m))
  {
  }

  /** After the pass the memory-bit counter has advanced by the bits of all
      visited tiles, the bit-line and word-line counters equal it when a tile
      was visited, every SRAM or scan-chain counter has advanced by the same
      total, every I/O-pad counter by the pads of all visited tiles, and the
      other models are unchanged. */
  lemma PassCounters(st: PassState, grid: seq<seq<GridTile>>, nx: int, ny: int)
    requires GridShape(grid, nx, ny) && AllListed(st.models)
    ensures
      var order := AllocationOrder(grid, nx, ny);
      var r := PassAlong(st, grid, order);
      && r.orgz.numMemBit == st.orgz.numMemBit + Total(grid, order, ConfBits)
      && (order != [] ==> r.orgz.numBl == r.orgz.numMemBit && r.orgz.numWl == r.orgz.numMemBit)
      && |r.models| == |st.models|
      && (forall i :: 0 <= i < |r.models| && MeasureOf(st.models[i].kind).Some? ==>
            r.models[i].cnt == st.models[i].cnt + Total(grid, order, MeasureOf(st.models[i].kind).value))
      && (forall i :: 0 <= i < |r.models| && MeasureOf(st.models[i].kind).None? ==> r.models[i] == st.models[i])
  {
    var order := AllocationOrder(grid, nx, ny);
    AllocateAlongCounters(st.orgz, grid, order);
    var r := PassAlong(st, grid, order);
    forall i | 0 <= i < |r.models|
      ensures MeasureOf(st.models[i].kind).Some? ==>
                r.models[i].cnt == st.models[i].cnt + Total(grid, order, MeasureOf(st.models[i].kind).value)
      ensures MeasureOf(st.models[i].kind).None? ==> r.models[i] == st.models[i]
    {
      if MeasureOf(st.models[i].kind).Some? {
        StampAllCount(st.models[i], grid, order);
      } else {
        StampAllIdle(st.models[i], grid, order);
      }
    }
  }

  /** A tile the pass does not visit keeps its entries in the memory
      organisation and in every model's tables. */
  lemma PassLeavesOthers(st: PassState, grid: seq<seq<GridTile>>, nx: int, ny: int, c: Coord)
    requires GridShape(grid, nx, ny) && AllListed(st.models) && c !in AllocationOrder(grid, nx, ny)
    ensures
      var r := PassAlong(st, grid, AllocationOrder(grid, nx, ny));
      && MapGetI(r.orgz.lsb, c) == MapGetI(st.orgz.lsb, c)
      && MapGetI(r.orgz.msb, c) == MapGetI(st.orgz.msb, c)
      && MapGetI(r.orgz.reserved, c) == MapGetI(st.orgz.reserved, c)
      && (forall i :: 0 <= i < |st.models| ==>
            MapGet(r.models[i].gridIndexLow, c) == MapGet(st.models[i].gridIndexLow, c)
            && MapGet(r.models[i].gridIndexHigh, c) == MapGet(st.models[i].gridIndexHigh, c))
  {
    var order := AllocationOrder(grid, nx, ny);
    AllocateAlongOutside(st.orgz, grid, order, c);
    var r := PassAlong(st, grid, order);
    forall i | 0 <= i < |st.models|
      ensures MapGet(r.models[i].gridIndexLow, c) == MapGet(st.models[i].gridIndexLow, c)
      ensures MapGet(r.models[i].gridIndexHigh, c) == MapGet(st.models[i].gridIndexHigh, c)
    {
      StampAllOutside(st.models[i], grid, order, c);
    }
  }

  /** A counting model records for the `j`-th visited tile the `j`-th range
      its own counter hands out. */
  lemma PassModelRange(st: PassState, grid: seq<seq<GridTile>>, nx: int, ny: int, i: nat, j: nat)
    requires GridShape(grid, nx, ny) && AllListed(st.models)
    requires i < |st.models| && MeasureOf(st.models[i].kind).Some? && j < |AllocationOrder(grid, nx, ny)|
    ensures
      var order := AllocationOrder(grid, nx, ny);
      var sm := PassAlong(st, grid, order).models[i];
      && order[j] in sm.gridIndexLow && order[j] in sm.gridIndexHigh
      && sm.gridIndexLow[order[j]] == RangeOf(grid, order, st.models[i].cnt, j, MeasureOf(st.models[i].kind).value).0
      && sm.gridIndexHigh[order[j]] == RangeOf(grid, order, st.models[i].cnt, j, MeasureOf(st.models[i].kind).value).1
  {
    AllocationOrderDistinct(grid, nx, ny);
    ModelRangeIsTileRange(st.models[i], grid, AllocationOrder(grid, nx, ny), j);
  }

  /** An SRAM or scan-chain model whose counter starts at the memory-bit
      counter records for every visited tile exactly the range the memory
      organisation gives it. */
  lemma PassSramAgrees(st: PassState, grid: seq<seq<GridTile>>, nx: int, ny: int, i: nat, j: nat)
    requires GridShape(grid, nx, ny) && AllListed(st.models)
    requires i < |st.models| && (st.models[i].kind == Sram || st.models[i].kind == Scff)
    requires st.models[i].cnt == st.orgz.numMemBit && j < |AllocationOrder(grid, nx, ny)|
    ensures
      var order := AllocationOrder(grid, nx, ny);
      var r := PassAlong(st, grid, order);
      && order[j] in r.models[i].gridIndexLow && order[j] in r.models[i].gridIndexHigh
      && order[j] in r.orgz.lsb && order[j] in r.orgz.msb
      && r.models[i].gridIndexLow[order[j]] == r.orgz.lsb[order[j]]
      && r.models[i].gridIndexHigh[order[j]] == r.orgz.msb[order[j]]
  {
    PassTileRange(st, grid, nx, ny, j);
    PassModelRange(st, grid, nx, ny, i, j);
  }

  // ---------------------------------------------------------------------
  // Logic-block emission: snapshot and restore of the counters
  // (dump_compact_verilog_logic_blocks)
  // ---------------------------------------------------------------------

  /** The counter of every model, in list order. */
  function Counters(ms: seq<SpiceModel>): (r: seq<int>)
    ensures |r| == |ms|
    ensures forall i :: 0 <= i < |ms| ==> r[i] == ms[i].cnt
  {
    seq(|ms|, i requires 0 <= i < |ms| => ms[i].cnt)
  }

  /** The list with every model's counter replaced from `cnts`. */
  function WithCounters(ms: seq<SpiceModel>, cnts: seq<int>): (r: seq<SpiceModel>)
    requires |cnts| == |ms|
    ensures |r| == |ms|
    ensures forall i :: 0 <= i < |ms| ==> r[i] == ms[i].(cnt := cnts[i])
  {
    seq(|ms|, i requires 0 <= i < |ms| => ms[i].(cnt := cnts[i]))
  }

  /** Whatever the emission did to the counters, putting the snapshot back
      gives the list as it was before the emission. */
  lemma RestoreAfterEmission(ms: seq<SpiceModel>, emitted: seq<int>)
    requires |emitted| == |ms|
    ensures WithCounters(WithCounters(ms, emitted), Counters(ms)) == ms
    ensures Counters(WithCounters(ms, emitted)) == emitted
  {
    var back := WithCounters(WithCounters(ms, emitted), Counters(ms));
    forall i | 0 <= i < |ms| ensures back[i] == ms[i] {
    }
  }

  /** `snapshot_spice_model_counter`: the counters of the model list. */
  method SnapshotSpiceModelCounter(models: array<SpiceModel>) returns (cnts: seq<int>)
    ensures cnts == Counters(models[..])
  {
    cnts := [];
    var i := 0;
    while i < models.Length
      invariant 0 <= i <= models.Length && |cnts| == i
      invariant forall k :: 0 <= k < i ==> cnts[k] == models[k].cnt
    {
      cnts := cnts + [models[i].cnt];
      i := i + 1;
    }
  }

  /** `set_spice_model_counter`: every model's counter is set from `cnts`;
      nothing else changes. */
  method SetSpiceModelCounter(models: array<SpiceModel>, cnts: seq<int>)
    requires |cnts| == models.Length
    modifies models
    ensures models[..] == WithCounters(old(models[..]), cnts)
  {
    var i := 0;
    while i < models.Length
      invariant 0 <= i <= models.Length
      invariant forall k :: 0 <= k < i ==> models[k] == old(models[k]).(cnt := cnts[k])
      invariant forall k :: i <= k < models.Length ==> models[k] == old(models[k])
    {
      models[i] := models[i].(cnt := cnts[i]);
      i := i + 1;
    }
  }

  /** `dump_compact_verilog_logic_blocks`, as far as the counters go: the
      model counters and the memory organisation's counters are
      snapshotted, emitting the block modules moves them (to the given
      values, standing for what the emission of the module bodies consumes),
      the snapshot is put back, and only then does the allocation pass run.
      So the pass starts from the counters as they were on entry. */
  method DumpLogicBlocks(info: SramOrgzInfo, models: array<SpiceModel>, grid: seq<seq<GridTile>>,
                         nx: int, ny: int, emittedCnts: seq<int>, emittedMemBit: int, emittedBl: int, emittedWl: int)
    requires GridShape(grid, nx, ny) && info.Valid() && Covers(info, grid) && |emittedCnts| == models.Length
    requires nx > 0 && ny > 0 ==> DeviceLayout(grid, nx, ny) && AllListed(models[..])
    modifies info, info.gridReservedConfBits, info.gridConfBitsLsb, info.gridConfBitsMsb, models
    ensures info.Valid()
    ensures nx == 0 || ny == 0 ==> info.View() == old(info.View()) && models[..] == old(models[..])
    ensures nx > 0 && ny > 0 ==>
      PassState(info.View(), models[..]) == PassAlong(PassState(old(info.View()), old(models[..])), grid, AllocationOrder(grid, nx, ny))
  {
    var stampedCnt := SnapshotSpiceModelCounter(models);
    var stampedMemBit, stampedBl, stampedWl := info.numMemBit, info.numBl, info.numWl;
    SetSpiceModelCounter(models, emittedCnts);
    info.SetCounters(emittedMemBit, emittedBl, emittedWl);
    SetSpiceModelCounter(models, stampedCnt);
    info.SetCounters(stampedMemBit, stampedBl, stampedWl);
    RestoreAfterEmission(old(models[..]), emittedCnts);
    UpdateGridSpiceModelAndSramOrgzInfo(info, models, grid, nx, ny);
  }

  // ---------------------------------------------------------------------
  // Grid module names
  // ---------------------------------------------------------------------

  /** `generate_compact_verilog_grid_module_name_prefix`: the grid prefix,
      followed for an I/O block by the name of its border side and `_`.
      `sideNames` stands for `convert_side_index_to_string`; an I/O block
      needs a side in `0 .. 3` (an assertion in the source). */
  function ModuleNamePrefix(gridPrefix: string, t: BlockType, side: int, sideNames: seq<string>): (r: string)
    requires |sideNames| == 4 && (t.isIO ==> 0 <= side < 4)
    ensures |gridPrefix| <= |r| && r[..|gridPrefix|] == gridPrefix
  {
    if t.isIO then gridPrefix + sideNames[side] + "_" else gridPrefix
  }

  /** `generate_compact_verilog_grid_module_name`: the prefix followed by
      the type's name. */
  function ModuleName(gridPrefix: string, t: BlockType, side: int, sideNames: seq<string>): (r: string)
    requires |sideNames| == 4 && (t.isIO ==> 0 <= side < 4)
    ensures |gridPrefix| + |t.name| <= |r|
    ensures r[..|gridPrefix|] == gridPrefix && r[|r| - |t.name|..] == t.name
  {
    var p := ModuleNamePrefix(gridPrefix, t, side, sideNames);
    assert (p + t.name)[..|gridPrefix|] == p[..|gridPrefix|];
    p + t.name
  }

  /** A block that is not an I/O block has one module name whatever side is
      passed; an I/O block has one per side, two sides sharing a name only
      when their side names coincide. */
  lemma ModuleNamesBySide(gridPrefix: string, t: BlockType, s1: int, s2: int, sideNames: seq<string>)
    requires |sideNames| == 4 && (t.isIO ==> 0 <= s1 < 4 && 0 <= s2 < 4)
    ensures ModuleName(gridPrefix, t, s1, sideNames) == ModuleName(gridPrefix, t, s2, sideNames)
            <==> !t.isIO || sideNames[s1] == sideNames[s2]
  {
    if t.isIO && ModuleName(gridPrefix, t, s1, sideNames) == ModuleName(gridPrefix, t, s2, sideNames) {
      var a := sideNames[s1];
      var b := sideNames[s2];
      var n1 := gridPrefix + a + "_" + t.name;
      var n2 := gridPrefix + b + "_" + t.name;
      assert n1 == ModuleName(gridPrefix, t, s1, sideNames);
      assert n2 == ModuleName(gridPrefix, t, s2, sideNames);
      assert |a| == |b|;
      assert n1[|gridPrefix|..|gridPrefix| + |a|] == a;
      assert n2[|gridPrefix|..|gridPrefix| + |b|] == b;
    }
  }

  // ---------------------------------------------------------------------
  // Port lists of a physical block (dump_compact_verilog_one_physical_block)
  // ---------------------------------------------------------------------

  /** The pad and configuration ports of one port list: pads
      `[iopadLsb, iopadMsb)`, reserved bits `[0, reservedMsb)`, configuration
      bits `[confLsb, confMsb)`, and whether the reserved, SRAM and
      formal-verification sections are printed. */
  datatype PortList = PortList(iopadLsb: int, iopadMsb: int, reservedMsb: int, confLsb: int, confMsb: int,
                               reservedPorts: bool, sramPorts: bool, formalPorts: bool)

  /** The ports of the top module of a block type: all pads and all
      configuration bits of its `capacity` instances, counted from zero. */
  function BlockPorts(t: BlockType): (p: PortList)
    ensures p.confLsb == 0 && p.confMsb == TileSize(t, ConfBits)
    ensures p.iopadLsb == 0 && p.iopadMsb == TileSize(t, Iopads)
    ensures p.reservedMsb == t.numReservedConfBits && (p.reservedPorts <==> 0 < t.numReservedConfBits)
    ensures p.sramPorts == p.formalPorts && (p.sramPorts <==> 0 < p.confMsb - p.confLsb)
  {
    var confMsb := t.capacity * t.numConfBits;
    PortList(0, t.capacity * t.numIopads, t.numReservedConfBits, 0, confMsb,
             0 < t.numReservedConfBits, 0 < confMsb, 0 < confMsb)
  }

  /** The ports the top module wires to its instance `iz`. */
  function InstancePorts(t: BlockType, iz: nat): PortList {
    PortList(iz * t.numIopads, (iz + 1) * t.numIopads, t.numReservedConfBits,
             iz * t.numConfBits, (iz + 1) * t.numConfBits,
             0 < t.numReservedConfBits, 0 < t.numConfBits, 0 < t.numConfBits)
  }

  /** The port list of the top module and of each of its instances, and
      the configuration-bit counter after the last instance, which the
      source asserts to be `capacity * conf_bits`. */
  method PhysicalBlockPorts(t: BlockType) returns (header: PortList, instances: seq<PortList>, confBitsMsb: int)
    ensures header == BlockPorts(t)
    ensures |instances| == t.capacity
    ensures forall iz :: 0 <= iz < |instances| ==> instances[iz] == InstancePorts(t, iz)
    ensures confBitsMsb == t.capacity * t.numConfBits
  {
    var reservedMsb := t.numReservedConfBits;
    var confMsb := t.capacity * t.numConfBits;
    header := PortList(0, t.capacity * t.numIopads, reservedMsb, 0, confMsb,
                       0 < reservedMsb, 0 < confMsb, 0 < confMsb);
    var confLsb := 0;
    var iopadLsb := 0;
    instances := [];
    var iz := 0;
    while iz < t.capacity
      invariant 0 <= iz <= t.capacity && |instances| == iz
      invariant confLsb == iz * t.numConfBits && iopadLsb == iz * t.numIopads
      invariant confMsb == if iz == 0 then t.capacity * t.numConfBits else confLsb
      invariant forall k :: 0 <= k < iz ==> instances[k] == InstancePorts(t, k)
    {
      reservedMsb := t.numReservedConfBits;
      confMsb := confLsb + t.numConfBits;
      var iopadMsb := iopadLsb + t.numIopads;
      instances := instances + [PortList(iopadLsb, iopadMsb, reservedMsb, confLsb, confMsb,
                                         0 < reservedMsb, 0 < confMsb - confLsb, 0 < confMsb - confLsb)];
      confLsb := confMsb;
      iopadLsb := iopadMsb;
      iz := iz + 1;
    }
    confBitsMsb := confMsb;
  }

  /** The instances cut the block's ranges into consecutive pieces: each
      instance starts where the previous one ends, the first starts at the
      block's start and the last ends at the block's end. */
  lemma InstancesTileBlock(t: BlockType)
    ensures forall iz: nat :: iz + 1 < t.capacity ==>
      InstancePorts(t, iz).confMsb == InstancePorts(t, iz + 1).confLsb
      && InstancePorts(t, iz).iopadMsb == InstancePorts(t, iz + 1).iopadLsb
    ensures 0 < t.capacity ==>
      InstancePorts(t, 0).confLsb == BlockPorts(t).confLsb && InstancePorts(t, 0).iopadLsb == BlockPorts(t).iopadLsb
    ensures 0 < t.capacity ==>
      && InstancePorts(t, t.capacity - 1).confMsb == BlockPorts(t).confMsb
      && InstancePorts(t, t.capacity - 1).iopadMsb == BlockPorts(t).iopadMsb
  {
  }

  /** The top module declares SRAM and formal-verification ports exactly
      when at least one of its instances is wired to some. */
  lemma InstanceSectionsMatchBlock(t: BlockType)
    ensures BlockPorts(t).sramPorts <==> exists iz: nat :: iz < t.capacity && InstancePorts(t, iz).sramPorts
    ensures BlockPorts(t).formalPorts <==> exists iz: nat :: iz < t.capacity && InstancePorts(t, iz).formalPorts
  {
    if 0 < t.capacity && 0 < t.numConfBits {
      assert InstancePorts(t, 0).sramPorts;
      PositiveProduct(t.capacity, t.numConfBits);
    }
  }

  lemma PositiveProduct(a: nat, b: nat)
    requires 0 < a && 0 < b
    ensures 0 < a * b
  {
  }

  // ---------------------------------------------------------------------
  // Instantiation of the grid modules (dump_compact_verilog_defined_grids)
  // ---------------------------------------------------------------------

  /** The ports `dump_compact_verilog_defined_one_grid` wires for tile `c`,
      as written: pads from the I/O-pad model's tables, reserved bits and the
      configuration range from the memory organisation's tables, with the
      formal-verification section printed only when `0 < msb - 1 - lsb`. */
  function GridCallPortsAsWritten(orgz: OrgzState, iopad: SpiceModel, c: Coord): (p: PortList)
    requires c in orgz.lsb && c in orgz.msb && c in orgz.reserved
    requires c in iopad.gridIndexLow && c in iopad.gridIndexHigh
    ensures p.formalPorts <==> 1 < p.confMsb - p.confLsb
  {
    var lsb := orgz.lsb[c];
    var msb := orgz.msb[c];
    PortList(iopad.gridIndexLow[c], iopad.gridIndexHigh[c], orgz.reserved[c], lsb, msb,
             0 < orgz.reserved[c], 0 < msb - lsb, 0 < msb - 1 - lsb)
  }

  /** The same ports with the formal-verification section guarded like the
      SRAM section, by `0 < msb - lsb`, as the block's own module does. */
  function GridCallPorts(orgz: OrgzState, iopad: SpiceModel, c: Coord): (p: PortList)
    requires c in orgz.lsb && c in orgz.msb && c in orgz.reserved
    requires c in iopad.gridIndexLow && c in iopad.gridIndexHigh
    ensures p.formalPorts == p.sramPorts
    ensures p == GridCallPortsAsWritten(orgz, iopad, c).(formalPorts := p.formalPorts)
  {
    var lsb := orgz.lsb[c];
    var msb := orgz.msb[c];
    PortList(iopad.gridIndexLow[c], iopad.gridIndexHigh[c], orgz.reserved[c], lsb, msb,
             0 < orgz.reserved[c], 0 < msb - lsb, 0 < msb - lsb)
  }

  /** As written, a tile whose configuration range is one bit wide is
      instantiated without its formal-verification ports although its
      module declares them; the two guards differ on exactly those tiles. */
  lemma FormalPortsAsWrittenMissWidthOne(orgz: OrgzState, iopad: SpiceModel, c: Coord, t: BlockType)
    requires c in orgz.lsb && c in orgz.msb && c in orgz.reserved
    requires c in iopad.gridIndexLow && c in iopad.gridIndexHigh
    requires orgz.msb[c] - orgz.lsb[c] == TileSize(t, ConfBits)
    ensures GridCallPortsAsWritten(orgz, iopad, c).formalPorts != GridCallPorts(orgz, iopad, c).formalPorts
            <==> TileSize(t, ConfBits) == 1
    ensures TileSize(t, ConfBits) == 1 ==>
      BlockPorts(t).formalPorts && !GridCallPortsAsWritten(orgz, iopad, c).formalPorts
  {
  }

  /** A block of capacity one with one configuration bit, visited first by
      the pass from a zero counter, shows the discrepancy. */
  lemma FormalPortsWidthOneWitness()
    ensures
      var t := BlockType("clb", false, false, 1, 1, 0, 0);
      var c := Coord(1, 1);
      var orgz := StampCell(OrgzState(0, 0, 0, imap[], imap[], imap[]), t, c);
      var iopad := StampModel(SpiceModel(Iopad, 0, map[], map[]), t, c);
      && BlockPorts(t).formalPorts
      && !GridCallPortsAsWritten(orgz, iopad, c).formalPorts
      && GridCallPorts(orgz, iopad, c).formalPorts
  {
  }

  /** After the pass, the ports instantiated for the `j`-th visited tile
      (from an I/O-pad model `i`) have the widths and sections of the tile's
      block module, and sit at the `j`-th ranges of the memory-bit counter
      and of the pad counter. */
  lemma GridCallMatchesBlock(st: PassState, grid: seq<seq<GridTile>>, nx: int, ny: int, i: nat, j: nat)
    requires GridShape(grid, nx, ny) && AllListed(st.models)
    requires i < |st.models| && st.models[i].kind == Iopad && j < |AllocationOrder(grid, nx, ny)|
    ensures
      var order := AllocationOrder(grid, nx, ny);
      var r := PassAlong(st, grid, order);
      var c := order[j];
      var b := BlockPorts(TypeAt(grid, c));
      && c in r.orgz.lsb && c in r.orgz.msb && c in r.orgz.reserved
      && c in r.models[i].gridIndexLow && c in r.models[i].gridIndexHigh
      && var p := GridCallPorts(r.orgz, r.models[i], c);
      && p.confLsb == RangeOf(grid, order, st.orgz.numMemBit, j, ConfBits).0
      && p.iopadLsb == RangeOf(grid, order, st.models[i].cnt, j, Iopads).0
      && p.confMsb - p.confLsb == b.confMsb - b.confLsb
      && p.iopadMsb - p.iopadLsb == b.iopadMsb - b.iopadLsb
      && p.reservedMsb == b.reservedMsb && p.reservedPorts == b.reservedPorts
      && p.sramPorts == b.sramPorts && p.formalPorts == b.formalPorts
  {
    PassTileRange(st, grid, nx, ny, j);
    PassModelRange(st, grid, nx, ny, i, j);
  }

  /** One call of `dump_compact_verilog_defined_one_grid`: the tile and the
      border side passed (-1 in the core). */
  datatype GridCall = GridCall(at: Coord, side: int)

  /** What `dump_compact_verilog_defined_one_grid` instantiates for tile
      `c`: nothing for an EMPTY tile or a tile with a non-zero offset. */
  function OneGridCall(grid: seq<seq<GridTile>>, c: Coord, side: int): (r: seq<GridCall>)
    requires InGrid(grid, c)
    ensures |r| <= 1
    ensures r == [] <==> grid[c.x][c.y].blockType.isEmpty || grid[c.x][c.y].offset != 0
    ensures r != [] ==> r[0] == GridCall(c, side)
  {
    if grid[c.x][c.y].blockType.isEmpty || grid[c.x][c.y].offset != 0 then [] else [GridCall(c, side)]
  }

  /** The calls for tiles `(1, y) .. (x - 1, y)` of row `y`, all with side
      `side`. */
  function RowCalls(grid: seq<seq<GridTile>>, nx: int, ny: int, y: int, x: int, side: int): seq<GridCall>
    requires GridShape(grid, nx, ny) && 0 <= y <= ny + 1 && 1 <= x <= nx + 1
    decreases x
  {
    if x == 1 then [] else RowCalls(grid, nx, ny, y, x - 1, side) + OneGridCall(grid, Coord(x - 1, y), side)
  }

  /** The calls for tiles `(x, 1) .. (x, y - 1)` of column `x`, all with side
      `side`. */
  function ColCalls(grid: seq<seq<GridTile>>, nx: int, ny: int, x: int, y: int, side: int): seq<GridCall>
    requires GridShape(grid, nx, ny) && 0 <= x <= nx + 1 && 1 <= y <= ny + 1
    decreases y
  {
    if y == 1 then [] else ColCalls(grid, nx, ny, x, y - 1, side) + OneGridCall(grid, Coord(x, y - 1), side)
  }

  /** The calls for the core columns `1 .. x - 1`, column by column. */
  function CoreCallsUpTo(grid: seq<seq<GridTile>>, nx: int, ny: int, x: int): seq<GridCall>
    requires GridShape(grid, nx, ny) && 1 <= x <= nx + 1
    decreases x
  {
    if x == 1 then [] else CoreCallsUpTo(grid, nx, ny, x - 1) + ColCalls(grid, nx, ny, x - 1, ny + 1, -1)
  }

  /** Every call `dump_compact_verilog_defined_grids` makes, in order: the
      core tiles with side -1, then the top row (side 0), the right column
      (1), the bottom row (2) and the left column (3). */
  function DefinedGridCalls(grid: seq<seq<GridTile>>, nx: int, ny: int): seq<GridCall>
    requires GridShape(grid, nx, ny)
  {
    CoreCallsUpTo(grid, nx, ny, nx + 1)
    + RowCalls(grid, nx, ny, ny + 1, nx + 1, 0) + ColCalls(grid, nx, ny, nx + 1, ny + 1, 1)
    + RowCalls(grid, nx, ny, 0, nx + 1, 2) + ColCalls(grid, nx, ny, 0, ny + 1, 3)
  }

  /** The non-EMPTY tiles of row `y` are I/O tiles. */
  predicate PlacedIORow(grid: seq<seq<GridTile>>, nx: int, ny: int, y: int)
    requires GridShape(grid, nx, ny) && 0 <= y <= ny + 1
  {
    forall x :: 1 <= x <= nx && !grid[x][y].blockType.isEmpty ==> grid[x][y].blockType.isIO
  }

  /** The non-EMPTY tiles of column `x` are I/O tiles. */
  predicate PlacedIOColumn(grid: seq<seq<GridTile>>, nx: int, ny: int, x: int)
    requires GridShape(grid, nx, ny) && 0 <= x <= nx + 1
  {
    forall y :: 1 <= y <= ny && !grid[x][y].blockType.isEmpty ==> grid[x][y].blockType.isIO
  }

  /** The non-EMPTY tiles of core column `x` are not I/O tiles. */
  predicate PlacedCoreColumn(grid: seq<seq<GridTile>>, nx: int, ny: int, x: int)
    requires GridShape(grid, nx, ny) && 1 <= x <= nx
  {
    forall y :: 1 <= y <= ny && !grid[x][y].blockType.isEmpty ==> !grid[x][y].blockType.isIO
  }

  /** The placement the instantiation asserts, EMPTY tiles excepted. */
  predicate PlacementAsserted(grid: seq<seq<GridTile>>, nx: int, ny: int)
    requires GridShape(grid, nx, ny)
  {
    && (forall x :: 1 <= x <= nx ==> PlacedCoreColumn(grid, nx, ny, x))
    && PlacedIORow(grid, nx, ny, ny + 1) && PlacedIOColumn(grid, nx, ny, nx + 1)
    && PlacedIORow(grid, nx, ny, 0) && PlacedIOColumn(grid, nx, ny, 0)
  }

  /** The calls along row `y` of one border loop. */
  method InstantiateRow(grid: seq<seq<GridTile>>, nx: int, ny: int, y: int, side: int) returns (calls: seq<GridCall>)
    requires GridShape(grid, nx, ny) && 0 <= y <= ny + 1 && PlacedIORow(grid, nx, ny, y)
    ensures calls == RowCalls(grid, nx, ny, y, nx + 1, side)
  {
    calls := [];
    var x := 1;
    while x < nx + 1
      invariant 1 <= x <= nx + 1
      invariant calls == RowCalls(grid, nx, ny, y, x, side)
    {
      assert RowCalls(grid, nx, ny, y, x + 1, side) == calls + OneGridCall(grid, Coord(x, y), side);
      if !grid[x][y].blockType.isEmpty {
        assert grid[x][y].blockType.isIO;
        calls := calls + OneGridCall(grid, Coord(x, y), side);
      }
      x := x + 1;
    }
  }

  /** The calls along column `x` of one border loop. */
  method InstantiateColumn(grid: seq<seq<GridTile>>, nx: int, ny: int, x: int, side: int) returns (calls: seq<GridCall>)
    requires GridShape(grid, nx, ny) && 0 <= x <= nx + 1 && PlacedIOColumn(grid, nx, ny, x)
    ensures calls == ColCalls(grid, nx, ny, x, ny + 1, side)
  {
    calls := [];
    var y := 1;
    while y < ny + 1
      invariant 1 <= y <= ny + 1
      invariant calls == ColCalls(grid, nx, ny, x, y, side)
    {
      assert ColCalls(grid, nx, ny, x, y + 1, side) == calls + OneGridCall(grid, Coord(x, y), side);
      if !grid[x][y].blockType.isEmpty {
        assert grid[x][y].blockType.isIO;
        calls := calls + OneGridCall(grid, Coord(x, y), side);
      }
      y := y + 1;
    }
  }

  /** The calls for the core tiles of column `x`, bottom up. */
  method InstantiateCoreColumn(grid: seq<seq<GridTile>>, nx: int, ny: int, x: int) returns (calls: seq<GridCall>)
    requires GridShape(grid, nx, ny) && 1 <= x <= nx && PlacedCoreColumn(grid, nx, ny, x)
    ensures calls == ColCalls(grid, nx, ny, x, ny + 1, -1)
  {
    calls := [];
    var y := 1;
    while y < ny + 1
      invariant 1 <= y <= ny + 1
      invariant calls == ColCalls(grid, nx, ny, x, y, -1)
    {
      assert ColCalls(grid, nx, ny, x, y + 1, -1) == calls + OneGridCall(grid, Coord(x, y), -1);
      if !grid[x][y].blockType.isEmpty {
        assert !grid[x][y].blockType.isIO;
        calls := calls + OneGridCall(grid, Coord(x, y), -1);
      }
      y := y + 1;
    }
  }

  /** The calls for the core tiles, column by column. */
  method InstantiateCore(grid: seq<seq<GridTile>>, nx: int, ny: int) returns (calls: seq<GridCall>)
    requires GridShape(grid, nx, ny) && forall x :: 1 <= x <= nx ==> PlacedCoreColumn(grid, nx, ny, x)
    ensures calls == CoreCallsUpTo(grid, nx, ny, nx + 1)
  {
    calls := [];
    var x := 1;
    while x < nx + 1
      invariant 1 <= x <= nx + 1
      invariant calls == CoreCallsUpTo(grid, nx, ny, x)
    {
      var column := InstantiateCoreColumn(grid, nx, ny, x);
      calls := calls + column;
      x := x + 1;
    }
  }

  /** `dump_compact_verilog_defined_grids`: the core tiles with side -1, then
      the four borders with sides 0 (top), 1 (right), 2 (bottom) and
      3 (left); EMPTY tiles are passed over before the I/O assertion. */
  method DefinedGrids(grid: seq<seq<GridTile>>, nx: int, ny: int) returns (calls: seq<GridCall>)
    requires GridShape(grid, nx, ny) && PlacementAsserted(grid, nx, ny)
    ensures calls == DefinedGridCalls(grid, nx, ny)
  {
    calls := InstantiateCore(grid, nx, ny);
    var top := InstantiateRow(grid, nx, ny, ny + 1, 0);
    var right := InstantiateColumn(grid, nx, ny, nx + 1, 1);
    var bottom := InstantiateRow(grid, nx, ny, 0, 2);
    var left := InstantiateColumn(grid, nx, ny, 0, 3);
    calls := calls + top + right + bottom + left;
  }

  /** The tiles of `P`, each called with side `side`. */
  function Tag(P: seq<Coord>, side: int): (r: seq<GridCall>)
    ensures |r| == |P|
    ensures forall k :: 0 <= k < |P| ==> r[k] == GridCall(P[k], side)
  {
    seq(|P|, k requires 0 <= k < |P| => GridCall(P[k], side))
  }

  lemma TagAppend(P: seq<Coord>, Q: seq<Coord>, side: int)
    ensures Tag(P + Q, side) == Tag(P, side) + Tag(Q, side)
  {
    var l := Tag(P + Q, side);
    var r := Tag(P, side) + Tag(Q, side);
    forall k | 0 <= k < |l| ensures l[k] == r[k] {
      if k >= |P| { assert (P + Q)[k] == Q[k - |P|]; }
    }
  }

  /** The tiles a list of calls instantiates, in order. */
  function Sites(calls: seq<GridCall>): (r: seq<Coord>)
    ensures |r| == |calls|
    ensures forall k :: 0 <= k < |calls| ==> r[k] == calls[k].at
  {
    seq(|calls|, k requires 0 <= k < |calls| => calls[k].at)
  }

  lemma SitesAppend(a: seq<GridCall>, b: seq<GridCall>)
    ensures Sites(a + b) == Sites(a) + Sites(b)
  {
    var l := Sites(a + b);
    var r := Sites(a) + Sites(b);
    forall k | 0 <= k < |l| ensures l[k] == r[k] {
      if k >= |a| { assert (a + b)[k] == b[k - |a|]; }
    }
  }

  /** Offsets are never negative, and an I/O block is one tile tall and is
      not the EMPTY type. */
  predicate TilesWellFormed(grid: seq<seq<GridTile>>) {
    forall x, y :: 0 <= x < |grid| && 0 <= y < |grid[x]| ==>
      && 0 <= grid[x][y].offset
      && (grid[x][y].blockType.isIO ==> grid[x][y].offset == 0 && !grid[x][y].blockType.isEmpty)
  }

  /** In a core column, the instantiation passes over exactly the tiles the
      allocation passes over. */
  lemma {:induction false} CoreColumnCalls(grid: seq<seq<GridTile>>, nx: int, ny: int, x: int, y: int)
    requires GridShape(grid, nx, ny) && TilesWellFormed(grid) && 1 <= x <= nx && 1 <= y <= ny + 1
    ensures ColCalls(grid, nx, ny, x, y, -1) == Tag(ColumnUpTo(grid, nx, ny, x, y), -1)
    decreases y
  {
    if y > 1 {
      CoreColumnCalls(grid, nx, ny, x, y - 1);
      var c := Coord(x, y - 1);
      assert 0 <= grid[x][y - 1].offset;
      var last := if CoreTileAllocated(grid[x][y - 1]) then [c] else [];
      TagAppend(ColumnUpTo(grid, nx, ny, x, y - 1), last, -1);
      assert OneGridCall(grid, c, -1) == Tag(last, -1);
    }
  }

  lemma {:induction false} CoreCalls(grid: seq<seq<GridTile>>, nx: int, ny: int, x: int)
    requires GridShape(grid, nx, ny) && TilesWellFormed(grid) && 1 <= x <= nx + 1
    ensures CoreCallsUpTo(grid, nx, ny, x) == Tag(CoreUpTo(grid, nx, ny, x), -1)
    decreases x
  {
    if x > 1 {
      CoreCalls(grid, nx, ny, x - 1);
      CoreColumnCalls(grid, nx, ny, x - 1, ny + 1);
      TagAppend(CoreUpTo(grid, nx, ny, x - 1), ColumnUpTo(grid, nx, ny, x - 1, ny + 1), -1);
    }
  }

  /** On a border row of I/O tiles every tile is instantiated. */
  lemma {:induction false} BorderRowCalls(grid: seq<seq<GridTile>>, nx: int, ny: int, y: int, x: int, side: int)
    requires GridShape(grid, nx, ny) && TilesWellFormed(grid) && 0 <= y <= ny + 1 && 1 <= x <= nx + 1
    requires IORow(grid, nx, ny, y)
    ensures RowCalls(grid, nx, ny, y, x, side) == Tag(RowUpTo(y, x), side)
    decreases x
  {
    if x > 1 {
      BorderRowCalls(grid, nx, ny, y, x - 1, side);
      assert grid[x - 1][y].blockType.isIO;
      TagAppend(RowUpTo(y, x - 1), [Coord(x - 1, y)], side);
    }
  }

  /** On a border column of I/O tiles every tile is instantiated. */
  lemma {:induction false} BorderColumnCalls(grid: seq<seq<GridTile>>, nx: int, ny: int, x: int, y: int, side: int)
    requires GridShape(grid, nx, ny) && TilesWellFormed(grid) && 0 <= x <= nx + 1 && 1 <= y <= ny + 1
    requires IOColumn(grid, nx, ny, x)
    ensures ColCalls(grid, nx, ny, x, y, side) == Tag(ColUpTo(x, y), side)
    decreases y
  {
    if y > 1 {
      BorderColumnCalls(grid, nx, ny, x, y - 1, side);
      assert grid[x][y - 1].blockType.isIO;
      TagAppend(ColUpTo(x, y - 1), [Coord(x, y - 1)], side);
    }
  }

  /** The placement the allocation pass asserts implies the one the
      instantiation asserts. */
  lemma LayoutMeetsInstantiation(grid: seq<seq<GridTile>>, nx: int, ny: int)
    requires GridShape(grid, nx, ny) && DeviceLayout(grid, nx, ny)
    ensures PlacementAsserted(grid, nx, ny)
  {
    forall x | 1 <= x <= nx ensures PlacedCoreColumn(grid, nx, ny, x) {
      assert CoreColumn(grid, nx, ny, x);
    }
  }

  /** The four border loops instantiate every border tile, each loop with
      the index of its border's side (`RRTypes.SideIndex`: top 0, right 1,
      bottom 2, left 3). */
  lemma BorderCalls(grid: seq<seq<GridTile>>, nx: int, ny: int)
    requires GridShape(grid, nx, ny) && TilesWellFormed(grid)
    requires IORow(grid, nx, ny, ny + 1) && IOColumn(grid, nx, ny, nx + 1)
    requires IORow(grid, nx, ny, 0) && IOColumn(grid, nx, ny, 0)
    ensures RowCalls(grid, nx, ny, ny + 1, nx + 1, 0) == Tag(RowUpTo(ny + 1, nx + 1), 0)
    ensures ColCalls(grid, nx, ny, nx + 1, ny + 1, 1) == Tag(ColUpTo(nx + 1, ny + 1), 1)
    ensures RowCalls(grid, nx, ny, 0, nx + 1, 2) == Tag(RowUpTo(0, nx + 1), 2)
    ensures ColCalls(grid, nx, ny, 0, ny + 1, 3) == Tag(ColUpTo(0, ny + 1), 3)
  {
    BorderRowCalls(grid, nx, ny, ny + 1, nx + 1, 0);
    BorderColumnCalls(grid, nx, ny, nx + 1, ny + 1, 1);
    BorderRowCalls(grid, nx, ny, 0, nx + 1, 2);
    BorderColumnCalls(grid, nx, ny, 0, ny + 1, 3);
  }

  /** The tiles of a concatenation of five call lists. */
  lemma SitesAppend5(a: seq<GridCall>, b: seq<GridCall>, c: seq<GridCall>, d: seq<GridCall>, e: seq<GridCall>)
    ensures Sites(a + b + c + d + e) == Sites(a) + Sites(b) + Sites(c) + Sites(d) + Sites(e)
  {
    SitesAppend(a, b);
    SitesAppend(a + b, c);
    SitesAppend(a + b + c, d);
    SitesAppend(a + b + c + d, e);
  }

  lemma SitesTag(P: seq<Coord>, side: int)
    ensures Sites(Tag(P, side)) == P
  {
  }

  /** On a well-formed device with a core, the instantiation calls the
      grid modules of exactly the tiles the allocation pass visited, in the
      same order. */
  lemma DefinedGridsFollowAllocation(grid: seq<seq<GridTile>>, nx: int, ny: int)
    requires GridShape(grid, nx, ny) && nx > 0 && ny > 0 && DeviceLayout(grid, nx, ny) && TilesWellFormed(grid)
    ensures Sites(DefinedGridCalls(grid, nx, ny)) == AllocationOrder(grid, nx, ny)
  {
    var core := CoreCallsUpTo(grid, nx, ny, nx + 1);
    var top := RowCalls(grid, nx, ny, ny + 1, nx + 1, 0);
    var right := ColCalls(grid, nx, ny, nx + 1, ny + 1, 1);
    var bottom := RowCalls(grid, nx, ny, 0, nx + 1, 2);
    var left := ColCalls(grid, nx, ny, 0, ny + 1, 3);
    SitesAppend5(core, top, right, bottom, left);
    CoreCalls(grid, nx, ny, nx + 1);
    SitesTag(CoreUpTo(grid, nx, ny, nx + 1), -1);
    BorderCalls(grid, nx, ny);
    SitesTag(RowUpTo(ny + 1, nx + 1), 0);
    SitesTag(ColUpTo(nx + 1, ny + 1), 1);
    SitesTag(RowUpTo(0, nx + 1), 2);
    SitesTag(ColUpTo(0, ny + 1), 3);
  }
}
