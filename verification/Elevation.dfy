/** The elevation grid: bilinear cells and their continuity across cell edges. */
module Elevation {
  import opened Common
  import opened ClearanceRoots

  datatype ElevationGrid = ElevationGrid(originX: real, originY: real, cell: real, rows: nat, cols: nat, heights: seq<real>) {
    predicate Valid() { cell > 0.0 && rows >= 2 && cols >= 2 && |heights| == rows * cols }

    function MaxX(): real { GridLine(originX, cell, cols - 1) }

    function MaxY(): real { GridLine(originY, cell, rows - 1) }

    predicate Covers(x: real, y: real) { originX <= x <= MaxX() && originY <= y <= MaxY() }

    function NodeHeight(row: nat, column: nat): real
      requires Valid() && row < rows && column < cols
    {
      IndexFits(row, column, rows, cols);
      heights[row * cols + column]
    }
  }

  lemma IndexFits(row: nat, column: nat, rows: nat, cols: nat)
    requires row < rows && column < cols
    ensures 0 <= row * cols + column < rows * cols
  {
    assert row * cols + cols <= rows * cols by {
      assert (row + 1) * cols <= rows * cols;
      assert (row + 1) * cols == row * cols + cols;
    }
  }

  // -- cells

  /** The line of index k of an axis. */
  function GridLine(origin: real, cell: real, k: int): real { origin + k as real * cell }

  /** Where a coordinate falls on its axis, counted in cells. */
  function Position(origin: real, cell: real, x: real): real
    requires cell > 0.0
  {
    (x - origin) / cell
  }

  /** The cell of a coordinate, clamped so that the far edge belongs to the last cell. */
  function CellIndex(origin: real, cell: real, count: nat, x: real): (k: nat)
    requires cell > 0.0 && count >= 2
    ensures k <= count - 2
  {
    var k := Position(origin, cell, x).Floor;
    if k < 0 then 0 else if k > count - 2 then count - 2 else k
  }

  /** The coordinate lies in the closed cell k. */
  predicate InCell(origin: real, cell: real, k: int, x: real) {
    GridLine(origin, cell, k) <= x <= GridLine(origin, cell, k + 1)
  }

  /** Position within a cell, from 0 to 1. */
  function Offset(origin: real, cell: real, k: int, x: real): real
    requires cell > 0.0
  {
    (x - GridLine(origin, cell, k)) / cell
  }

  lemma DivideTimes(x: real, cell: real)
    requires cell > 0.0
    ensures (x / cell) * cell == x
  {
  }

  lemma ScaleOrder(a: real, b: real, cell: real)
    requires cell > 0.0
    ensures a <= b <==> a * cell <= b * cell
    ensures a < b <==> a * cell < b * cell
  {
    SignOfProduct(b - a, cell);
    assert (b - a) * cell == b * cell - a * cell;
  }

  /** A coordinate and its position compare with the grid lines alike. */
  lemma LinesAndPosition(origin: real, cell: real, k: int, x: real)
    requires cell > 0.0
    ensures GridLine(origin, cell, k) <= x <==> k as real <= Position(origin, cell, x)
    ensures x <= GridLine(origin, cell, k) <==> Position(origin, cell, x) <= k as real
  {
    DivideTimes(x - origin, cell);
    ScaleOrder(k as real, Position(origin, cell, x), cell);
    ScaleOrder(Position(origin, cell, x), k as real, cell);
  }

  /** A covered coordinate lies in its own cell. */
  lemma CellContains(origin: real, cell: real, count: nat, x: real)
    requires cell > 0.0 && count >= 2 && origin <= x <= GridLine(origin, cell, count - 1)
    ensures InCell(origin, cell, CellIndex(origin, cell, count, x), x)
  {
    var k := CellIndex(origin, cell, count, x);
    assert GridLine(origin, cell, 0) == origin;
    hide GridLine, Position;
    LinesAndPosition(origin, cell, 0, x);
    LinesAndPosition(origin, cell, count - 1, x);
    LinesAndPosition(origin, cell, k, x);
    LinesAndPosition(origin, cell, k + 1, x);
  }

  function Bilinear(z00: real, z10: real, z01: real, z11: real, s: real, t: real): real {
    (1.0 - s) * (1.0 - t) * z00 + s * (1.0 - t) * z10 + (1.0 - s) * t * z01 + s * t * z11
  }

  /** The height a given cell's patch gives to a point. */
  function Patch(g: ElevationGrid, row: nat, column: nat, x: real, y: real): real
    requires g.Valid() && row + 1 < g.rows && column + 1 < g.cols
  {
    Bilinear(g.NodeHeight(row, column), g.NodeHeight(row, column + 1), g.NodeHeight(row + 1, column), g.NodeHeight(row + 1, column + 1),
             Offset(g.originX, g.cell, column, x), Offset(g.originY, g.cell, row, y))
  }

  datatype ElevationError = OutsideCoverage

  /** The elevation at a point; outside the coverage there is none. */
  function ElevationAt(g: ElevationGrid, x: real, y: real): Result<real, ElevationError>
    requires g.Valid()
  {
    if !g.Covers(x, y) then Err(OutsideCoverage)
    else Ok(Patch(g, CellIndex(g.originY, g.cell, g.rows, y), CellIndex(g.originX, g.cell, g.cols, x), x, y))
  }

  // -- continuity across cell edges

  lemma LinesInOrder(origin: real, cell: real, j: int, k: int)
    requires cell > 0.0
    ensures j <= k <==> GridLine(origin, cell, j) <= GridLine(origin, cell, k)
  {
    ScaleOrder(j as real, k as real, cell);
  }

  lemma OffsetOfLine(origin: real, cell: real, k: int, node: int)
    requires cell > 0.0
    ensures Offset(origin, cell, k, GridLine(origin, cell, node)) == (node - k) as real
  {
    var d := (node - k) as real;
    assert node as real == k as real + d;
    assert node as real * cell == k as real * cell + d * cell;
    assert GridLine(origin, cell, node) - GridLine(origin, cell, k) == d * cell;
    assert (d * cell) / cell == d;
  }

  /** Two closed cells of an axis share a coordinate only when equal or adjacent, and then on the common line. */
  lemma SharedCell(origin: real, cell: real, j: int, k: int, x: real)
    requires cell > 0.0 && InCell(origin, cell, j, x) && InCell(origin, cell, k, x) && j <= k
    ensures j == k || (k == j + 1 && x == GridLine(origin, cell, k))
    ensures k == j + 1 ==> Offset(origin, cell, j, x) == 1.0 && Offset(origin, cell, k, x) == 0.0
  {
    LinesInOrder(origin, cell, k, j + 1);
    LinesInOrder(origin, cell, j + 1, k);
    OffsetOfLine(origin, cell, j, k);
    OffsetOfLine(origin, cell, k, k);
    hide GridLine, Offset;
  }

  lemma BilinearEdges(z00: real, z10: real, z01: real, z11: real, s: real, t: real)
    ensures s == 1.0 ==> Bilinear(z00, z10, z01, z11, s, t) == (1.0 - t) * z10 + t * z11
    ensures s == 0.0 ==> Bilinear(z00, z10, z01, z11, s, t) == (1.0 - t) * z00 + t * z01
    ensures t == 1.0 ==> Bilinear(z00, z10, z01, z11, s, t) == (1.0 - s) * z01 + s * z11
    ensures t == 0.0 ==> Bilinear(z00, z10, z01, z11, s, t) == (1.0 - s) * z00 + s * z10
  {
  }

  lemma ColumnsAgree(g: ElevationGrid, row: nat, j: nat, k: nat, x: real, y: real)
    requires g.Valid() && row + 1 < g.rows && j <= k && k + 1 < g.cols
    requires InCell(g.originX, g.cell, j, x) && InCell(g.originX, g.cell, k, x)
    ensures Patch(g, row, j, x, y) == Patch(g, row, k, x, y)
  {
    SharedCell(g.originX, g.cell, j, k, x);
    if k == j + 1 {
      var t := Offset(g.originY, g.cell, row, y);
      BilinearEdges(g.NodeHeight(row, j), g.NodeHeight(row, j + 1), g.NodeHeight(row + 1, j), g.NodeHeight(row + 1, j + 1), 1.0, t);
      BilinearEdges(g.NodeHeight(row, k), g.NodeHeight(row, k + 1), g.NodeHeight(row + 1, k), g.NodeHeight(row + 1, k + 1), 0.0, t);
    }
    hide Bilinear, Offset, InCell;
  }

  lemma RowsAgree(g: ElevationGrid, column: nat, j: nat, k: nat, x: real, y: real)
    requires g.Valid() && column + 1 < g.cols && j <= k && k + 1 < g.rows
    requires InCell(g.originY, g.cell, j, y) && InCell(g.originY, g.cell, k, y)
    ensures Patch(g, j, column, x, y) == Patch(g, k, column, x, y)
  {
    SharedCell(g.originY, g.cell, j, k, y);
    if k == j + 1 {
      var s := Offset(g.originX, g.cell, column, x);
      BilinearEdges(g.NodeHeight(j, column), g.NodeHeight(j, column + 1), g.NodeHeight(j + 1, column), g.NodeHeight(j + 1, column + 1), s, 1.0);
      BilinearEdges(g.NodeHeight(k, column), g.NodeHeight(k, column + 1), g.NodeHeight(k + 1, column), g.NodeHeight(k + 1, column + 1), s, 0.0);
    }
    hide Bilinear, Offset, InCell;
  }

  /** Every closed cell that holds a covered point gives it the same elevation: the surface is continuous. */
  lemma AnyCellGivesElevation(g: ElevationGrid, row: nat, column: nat, x: real, y: real)
    requires g.Valid() && g.Covers(x, y) && row + 1 < g.rows && column + 1 < g.cols
    requires InCell(g.originX, g.cell, column, x) && InCell(g.originY, g.cell, row, y)
    ensures ElevationAt(g, x, y) == Ok(Patch(g, row, column, x, y))
  {
    hide GridLine, Position, Patch, InCell;
    var r, c := CellIndex(g.originY, g.cell, g.rows, y), CellIndex(g.originX, g.cell, g.cols, x);
    CellContains(g.originX, g.cell, g.cols, x);
    CellContains(g.originY, g.cell, g.rows, y);
    assert ElevationAt(g, x, y) == Ok(Patch(g, r, c, x, y));
    assert g.Valid() && r + 1 < g.rows && c + 1 < g.cols;
    hide *;
    PatchesAgree(g, r, c, row, column, x, y);
  }

  lemma PatchesAgree(g: ElevationGrid, r: nat, c: nat, row: nat, column: nat, x: real, y: real)
    requires g.Valid() && r + 1 < g.rows && c + 1 < g.cols && row + 1 < g.rows && column + 1 < g.cols
    requires InCell(g.originX, g.cell, column, x) && InCell(g.originY, g.cell, row, y)
    requires InCell(g.originX, g.cell, c, x) && InCell(g.originY, g.cell, r, y)
    ensures Patch(g, r, c, x, y) == Patch(g, row, column, x, y)
  {
    hide *;
    if c <= column { ColumnsAgree(g, r, c, column, x, y); } else { ColumnsAgree(g, r, column, c, x, y); }
    if r <= row { RowsAgree(g, column, r, row, x, y); } else { RowsAgree(g, column, row, r, x, y); }
  }

  lemma NodeInCell(origin: real, cell: real, k: int, node: int)
    requires cell > 0.0 && (node == k || node == k + 1)
    ensures InCell(origin, cell, k, GridLine(origin, cell, node))
  {
    assert (k + 1) as real * cell == k as real * cell + cell;
  }

  lemma LineCovered(origin: real, cell: real, count: nat, node: nat)
    requires cell > 0.0 && node < count
    ensures origin <= GridLine(origin, cell, node) <= GridLine(origin, cell, count - 1)
  {
    assert GridLine(origin, cell, 0) == origin;
    LinesInOrder(origin, cell, 0, node);
    LinesInOrder(origin, cell, node, count - 1);
  }

  lemma CornerHeights(z00: real, z10: real, z01: real, z11: real, s: real, t: real)
    requires (s == 0.0 || s == 1.0) && (t == 0.0 || t == 1.0)
    ensures Bilinear(z00, z10, z01, z11, s, t)
         == if s == 0.0 then (if t == 0.0 then z00 else z01) else (if t == 0.0 then z10 else z11)
  {
  }

  /** At a node the surface takes the node's height. */
  lemma NodesAreExact(g: ElevationGrid, row: nat, column: nat)
    requires g.Valid() && row < g.rows && column < g.cols
    ensures ElevationAt(g, GridLine(g.originX, g.cell, column), GridLine(g.originY, g.cell, row)) == Ok(g.NodeHeight(row, column))
  {
    var x, y := GridLine(g.originX, g.cell, column), GridLine(g.originY, g.cell, row);
    var r := if row + 1 < g.rows then row else row - 1;
    var c := if column + 1 < g.cols then column else column - 1;
    LineCovered(g.originX, g.cell, g.cols, column);
    LineCovered(g.originY, g.cell, g.rows, row);
    NodeInCell(g.originX, g.cell, c, column);
    NodeInCell(g.originY, g.cell, r, row);
    hide GridLine, InCell, Position, Patch;
    assert g.Covers(x, y);
    hide *;
    AnyCellGivesElevation(g, r, c, x, y);
    PatchAtCorner(g, r, c, row, column);
  }

  lemma PatchAtCorner(g: ElevationGrid, r: nat, c: nat, row: nat, column: nat)
    requires g.Valid() && r + 1 < g.rows && c + 1 < g.cols
    requires (row == r || row == r + 1) && (column == c || column == c + 1)
    ensures Patch(g, r, c, GridLine(g.originX, g.cell, column), GridLine(g.originY, g.cell, row)) == g.NodeHeight(row, column)
  {
    OffsetOfLine(g.originX, g.cell, c, column);
    OffsetOfLine(g.originY, g.cell, r, row);
    var z00, z10, z01, z11 := g.NodeHeight(r, c), g.NodeHeight(r, c + 1), g.NodeHeight(r + 1, c), g.NodeHeight(r + 1, c + 1);
    CornerHeights(z00, z10, z01, z11, (column - c) as real, (row - r) as real);
    hide Bilinear, Offset, GridLine;
  }
}
