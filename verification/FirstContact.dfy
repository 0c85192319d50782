/** The first contact of a straight segment with the terrain, exact over the reals. */
module FirstContact {
  import opened Common
  import opened ClearanceRoots
  import opened Elevation

  datatype Segment = Segment(x0: real, y0: real, z0: real, x1: real, y1: real, z1: real) {
    function DeltaX(): real { x1 - x0 }

    function DeltaY(): real { y1 - y0 }

    function DeltaZ(): real { z1 - z0 }
  }

  function Along(start: real, delta: real, u: real): real { start + u * delta }

  predicate Inside(g: ElevationGrid, seg: Segment) { g.Covers(seg.x0, seg.y0) && g.Covers(seg.x1, seg.y1) }

  lemma BetweenEnds(start: real, finish: real, u: real, low: real, high: real)
    requires low <= start <= high && low <= finish <= high && 0.0 <= u <= 1.0
    ensures low <= Along(start, finish - start, u) <= high
  {
    assert start + u * (finish - start) == (1.0 - u) * start + u * finish;
    assert (1.0 - u) * low + u * low == low && (1.0 - u) * high + u * high == high;
    NotNegative(1.0 - u, start - low);
    NotNegative(1.0 - u, high - start);
    NotNegative(u, finish - low);
    NotNegative(u, high - finish);
    assert (1.0 - u) * (start - low) == (1.0 - u) * start - (1.0 - u) * low;
    assert (1.0 - u) * (high - start) == (1.0 - u) * high - (1.0 - u) * start;
    assert u * (finish - low) == u * finish - u * low;
    assert u * (high - finish) == u * high - u * finish;
  }

  /** The whole segment is covered when its ends are. */
  lemma SegmentCovered(g: ElevationGrid, seg: Segment, u: real)
    requires Inside(g, seg) && 0.0 <= u <= 1.0
    ensures g.Covers(Along(seg.x0, seg.DeltaX(), u), Along(seg.y0, seg.DeltaY(), u))
  {
    BetweenEnds(seg.x0, seg.x1, u, g.originX, g.MaxX());
    BetweenEnds(seg.y0, seg.y1, u, g.originY, g.MaxY());
    hide Along;
  }

  /** Height of the segment above the terrain at parameter u. */
  function TerrainClearance(g: ElevationGrid, seg: Segment, u: real): real
    requires g.Valid() && Inside(g, seg) && 0.0 <= u <= 1.0
  {
    SegmentCovered(g, seg, u);
    Along(seg.z0, seg.DeltaZ(), u) - ElevationAt(g, Along(seg.x0, seg.DeltaX(), u), Along(seg.y0, seg.DeltaY(), u)).value
  }

  // -- grid lines crossed

  /** Where the segment crosses grid line k of an axis. */
  function Crossing(origin: real, cell: real, k: int, start: real, delta: real): real
    requires delta != 0.0
  {
    (GridLine(origin, cell, k) - start) / delta
  }

  ghost predicate CrossesAt(origin: real, cell: real, count: nat, start: real, delta: real, u: real) {
    delta != 0.0 && exists k: nat :: k < count && u == Crossing(origin, cell, k, start, delta)
  }

  /** The crossings of one axis strictly inside the segment. */
  method AxisBreakpoints(origin: real, cell: real, count: nat, start: real, delta: real) returns (breakpoints: set<real>)
    ensures forall u :: u in breakpoints <==> 0.0 < u < 1.0 && CrossesAt(origin, cell, count, start, delta, u)
  {
    breakpoints := {};
    if delta == 0.0 { return; }
    for index := 0 to count
      invariant forall u :: u in breakpoints <==>
                  0.0 < u < 1.0 && exists k: nat :: k < index && u == Crossing(origin, cell, k, start, delta)
    {
      var parameter := Crossing(origin, cell, index, start, delta);
      if 0.0 < parameter < 1.0 { breakpoints := breakpoints + {parameter}; }
    }
  }

  // -- one piece, one cell

  /** No grid line of the axis is crossed strictly between a and b. */
  ghost predicate Uncrossed(origin: real, cell: real, count: nat, start: real, delta: real, a: real, b: real) {
    forall u :: a < u < b ==> !CrossesAt(origin, cell, count, start, delta, u)
  }

  lemma ZeroSlope(start: real, u: real)
    ensures Along(start, 0.0, u) == start
  {
  }

  /** Where an affine coordinate takes a value between those at v and w. */
  lemma Reaches(start: real, delta: real, v: real, w: real, target: real) returns (u: real)
    requires Along(start, delta, v) <= target < Along(start, delta, w) || Along(start, delta, w) < target <= Along(start, delta, v)
    ensures delta != 0.0 && u == (target - start) / delta
    ensures v <= u < w || w < u <= v
  {
    ZeroSlope(start, v);
    ZeroSlope(start, w);
    u := (target - start) / delta;
    assert u * delta == target - start;
    var p, q := delta * (u - v), delta * (w - u);
    assert p == u * delta - v * delta && q == w * delta - u * delta;
    assert (p >= 0.0 && q > 0.0) || (p <= 0.0 && q < 0.0);
    if delta > 0.0 {
      SignOfProduct(delta, u - v);
      SignOfProduct(delta, w - u);
    } else {
      SignOfProduct(delta, u - v);
      SignOfProduct(delta, w - u);
    }
  }

  /** Leaving the midpoint's closed cell within a piece crosses one of the cell's lines strictly inside the piece. */
  lemma LeavesCell(origin: real, cell: real, count: nat, start: real, delta: real, a: real, b: real, u: real, k: nat) returns (w: real)
    requires cell > 0.0 && k + 1 < count && a < b && a <= u <= b
    requires InCell(origin, cell, k, Along(start, delta, (a + b) / 2.0))
    requires !InCell(origin, cell, k, Along(start, delta, u))
    ensures a < w < b && CrossesAt(origin, cell, count, start, delta, w)
  {
    var middle := (a + b) / 2.0;
    hide Along, GridLine;
    var line := if Along(start, delta, u) > GridLine(origin, cell, k + 1) then k + 1 else k;
    w := Reaches(start, delta, middle, u, GridLine(origin, cell, line));
    assert w == Crossing(origin, cell, line, start, delta);
  }

  /** On a piece without crossings the coordinate never leaves the closed cell of the piece's midpoint. */
  lemma StaysInCell(origin: real, cell: real, count: nat, start: real, delta: real, a: real, b: real, u: real, k: nat)
    requires cell > 0.0 && k + 1 < count && a < b && a <= u <= b
    requires Uncrossed(origin, cell, count, start, delta, a, b)
    requires InCell(origin, cell, k, Along(start, delta, (a + b) / 2.0))
    ensures InCell(origin, cell, k, Along(start, delta, u))
  {
    hide InCell, Along, CrossesAt;
    if !InCell(origin, cell, k, Along(start, delta, u)) {
      var w := LeavesCell(origin, cell, count, start, delta, a, b, u, k);
    }
  }

  // -- the quadratic of one piece

  datatype Coefficients = Coefficients(quadratic: real, linear: real, constant: real)

  /** The height of a patch as a polynomial in u, along s = s0 + su u and t = t0 + tu u. */
  function TerrainCoefficients(z00: real, z10: real, z01: real, z11: real, s0: real, su: real, t0: real, tu: real): Coefficients {
    Gathered(z00, z10 - z00, z01 - z00, z11 - z10 - z01 + z00, s0, su, t0, tu)
  }

  function Gathered(z: real, d1: real, d2: real, twist: real, s0: real, su: real, t0: real, tu: real): Coefficients {
    var terrain2 := twist * su * tu;
    var terrain1 := d1 * su + d2 * tu + twist * (s0 * tu + t0 * su);
    var terrain0 := z + d1 * s0 + d2 * t0 + twist * s0 * t0;
    Coefficients(terrain2, terrain1, terrain0)
  }

  /** The clearance over one cell's patch, as a polynomial in u. */
  function PieceCoefficients(g: ElevationGrid, seg: Segment, row: nat, column: nat): Coefficients
    requires g.Valid() && row + 1 < g.rows && column + 1 < g.cols
  {
    var terrain := TerrainCoefficients(
      g.NodeHeight(row, column), g.NodeHeight(row, column + 1), g.NodeHeight(row + 1, column), g.NodeHeight(row + 1, column + 1),
      Offset(g.originX, g.cell, column, seg.x0), Slope(seg.DeltaX(), g.cell),
      Offset(g.originY, g.cell, row, seg.y0), Slope(seg.DeltaY(), g.cell));
    Coefficients(-terrain.quadratic, seg.DeltaZ() - terrain.linear, seg.z0 - terrain.constant)
  }

  function Slope(delta: real, cell: real): real
    requires cell > 0.0
  {
    delta / cell
  }

  lemma OffsetAlong(origin: real, cell: real, k: int, start: real, delta: real, u: real)
    requires cell > 0.0
    ensures Offset(origin, cell, k, Along(start, delta, u)) == Along(Offset(origin, cell, k, start), Slope(delta, cell), u)
  {
    var base := start - GridLine(origin, cell, k);
    assert (base + u * delta) / cell == base / cell + (u * delta) / cell;
    assert (u * delta) / cell == (delta / cell) * u;
  }

  ghost function Weighed(z: real, d1: real, d2: real, twist: real, s: real, t: real, product: real): real {
    z + d1 * s + d2 * t + twist * product
  }

  ghost function Product(s: real, t: real): real { s * t }

  lemma BilinearExpands(z00: real, z10: real, z01: real, z11: real, s: real, t: real)
    ensures Bilinear(z00, z10, z01, z11, s, t) == Weighed(z00, z10 - z00, z01 - z00, z11 - z10 - z01 + z00, s, t, Product(s, t))
  {
    assert (1.0 - s) * (1.0 - t) == 1.0 - s - t + s * t;
    assert (1.0 - s) * t == t - s * t && s * (1.0 - t) == s - s * t;
    assert (1.0 - s - t + s * t) * z00 == z00 - s * z00 - t * z00 + (s * t) * z00;
    assert (s - s * t) * z10 == s * z10 - (s * t) * z10;
    assert (t - s * t) * z01 == t * z01 - (s * t) * z01;
    assert (z11 - z10 - z01 + z00) * (s * t) == z11 * (s * t) - z10 * (s * t) - z01 * (s * t) + z00 * (s * t);
  }

  /** (s0 + su u) (t0 + tu u), multiplied out. */
  ghost function MultipliedOut(s0: real, su: real, t0: real, tu: real, u: real): real {
    s0 * t0 + (s0 * tu + t0 * su) * u + su * tu * (u * u)
  }

  lemma ProductAlong(s0: real, su: real, t0: real, tu: real, u: real)
    ensures Product(Along(s0, su, u), Along(t0, tu, u)) == MultipliedOut(s0, su, t0, tu, u)
  {
    assert (s0 + u * su) * (t0 + u * tu) == s0 * t0 + s0 * (u * tu) + (u * su) * t0 + (u * su) * (u * tu);
    assert (u * su) * (u * tu) == su * tu * (u * u);
  }

  /** A weighted sum of a constant, two lines and their product, collected by powers of u. */
  lemma Gathers(z: real, d1: real, d2: real, w: real, s0: real, su: real, t0: real, tu: real, u: real)
    ensures var p := Gathered(z, d1, d2, w, s0, su, t0, tu);
            Weighed(z, d1, d2, w, Along(s0, su, u), Along(t0, tu, u), MultipliedOut(s0, su, t0, tu, u))
            == Clearance(p.quadratic, p.linear, p.constant, u)
  {
    var mixed, square := s0 * tu + t0 * su, u * u;
    assert d1 * (s0 + u * su) == d1 * s0 + (d1 * su) * u;
    assert d2 * (t0 + u * tu) == d2 * t0 + (d2 * tu) * u;
    assert w * (s0 * t0 + mixed * u + su * tu * square) == w * s0 * t0 + (w * mixed) * u + (w * su * tu) * square;
    assert (w * su * tu * u + (d1 * su + d2 * tu + w * mixed)) * u
        == (w * su * tu) * square + (d1 * su) * u + (d2 * tu) * u + (w * mixed) * u;
  }

  lemma {:induction false} TerrainAlong(z00: real, z10: real, z01: real, z11: real, s0: real, su: real, t0: real, tu: real, u: real)
    ensures var p := TerrainCoefficients(z00, z10, z01, z11, s0, su, t0, tu);
            Bilinear(z00, z10, z01, z11, Along(s0, su, u), Along(t0, tu, u)) == Clearance(p.quadratic, p.linear, p.constant, u)
  {
    hide Bilinear, Along, Clearance, Weighed, Product, MultipliedOut, Gathered;
    BilinearExpands(z00, z10, z01, z11, Along(s0, su, u), Along(t0, tu, u));
    ProductAlong(s0, su, t0, tu, u);
    Gathers(z00, z10 - z00, z01 - z00, z11 - z10 - z01 + z00, s0, su, t0, tu, u);
  }

  lemma SubtractPolynomial(a: real, b: real, c: real, z0: real, dz: real, u: real)
    ensures Clearance(-a, dz - b, z0 - c, u) == Along(z0, dz, u) - Clearance(a, b, c, u)
  {
    assert (-a * u + (dz - b)) * u == (-a * u) * u + dz * u - b * u;
  }

  /** On the cell of a piece the polynomial is the clearance. */
  lemma {:induction false} PieceIsQuadratic(g: ElevationGrid, seg: Segment, row: nat, column: nat, u: real)
    requires g.Valid() && row + 1 < g.rows && column + 1 < g.cols
    ensures var p := PieceCoefficients(g, seg, row, column);
            Clearance(p.quadratic, p.linear, p.constant, u)
            == Along(seg.z0, seg.DeltaZ(), u) - Patch(g, row, column, Along(seg.x0, seg.DeltaX(), u), Along(seg.y0, seg.DeltaY(), u))
  {
    hide Offset, Bilinear, GridLine, Clearance, Along, Slope, TerrainCoefficients;
    var s0, su := Offset(g.originX, g.cell, column, seg.x0), Slope(seg.DeltaX(), g.cell);
    var t0, tu := Offset(g.originY, g.cell, row, seg.y0), Slope(seg.DeltaY(), g.cell);
    var z00, z10 := g.NodeHeight(row, column), g.NodeHeight(row, column + 1);
    var z01, z11 := g.NodeHeight(row + 1, column), g.NodeHeight(row + 1, column + 1);
    OffsetAlong(g.originX, g.cell, column, seg.x0, seg.DeltaX(), u);
    OffsetAlong(g.originY, g.cell, row, seg.y0, seg.DeltaY(), u);
    TerrainAlong(z00, z10, z01, z11, s0, su, t0, tu, u);
    var terrain := TerrainCoefficients(z00, z10, z01, z11, s0, su, t0, tu);
    SubtractPolynomial(terrain.quadratic, terrain.linear, terrain.constant, seg.z0, seg.DeltaZ(), u);
  }

  // -- the search

  ghost predicate UncrossedPiece(g: ElevationGrid, seg: Segment, a: real, b: real) {
    && Uncrossed(g.originX, g.cell, g.cols, seg.x0, seg.DeltaX(), a, b)
    && Uncrossed(g.originY, g.cell, g.rows, seg.y0, seg.DeltaY(), a, b)
  }

  /** Over a piece between neighbouring crossings the clearance is one cell's polynomial. */
  lemma PieceClearance(g: ElevationGrid, seg: Segment, a: real, b: real, u: real)
    requires g.Valid() && Inside(g, seg) && 0.0 <= a < b <= 1.0 && a <= u <= b && UncrossedPiece(g, seg, a, b)
    ensures var middle := (a + b) / 2.0;
            var column := CellIndex(g.originX, g.cell, g.cols, Along(seg.x0, seg.DeltaX(), middle));
            var row := CellIndex(g.originY, g.cell, g.rows, Along(seg.y0, seg.DeltaY(), middle));
            var p := PieceCoefficients(g, seg, row, column);
            TerrainClearance(g, seg, u) == Clearance(p.quadratic, p.linear, p.constant, u)
  {
    var middle := (a + b) / 2.0;
    var column := CellIndex(g.originX, g.cell, g.cols, Along(seg.x0, seg.DeltaX(), middle));
    var row := CellIndex(g.originY, g.cell, g.rows, Along(seg.y0, seg.DeltaY(), middle));
    SegmentCovered(g, seg, middle);
    SegmentCovered(g, seg, u);
    CellContains(g.originX, g.cell, g.cols, Along(seg.x0, seg.DeltaX(), middle));
    CellContains(g.originY, g.cell, g.rows, Along(seg.y0, seg.DeltaY(), middle));
    hide CellIndex, InCell, Along, Clearance, PieceCoefficients, Patch, ElevationAt, CrossesAt;
    StaysInCell(g.originX, g.cell, g.cols, seg.x0, seg.DeltaX(), a, b, u, column);
    StaysInCell(g.originY, g.cell, g.rows, seg.y0, seg.DeltaY(), a, b, u, row);
    AnyCellGivesElevation(g, row, column, Along(seg.x0, seg.DeltaX(), u), Along(seg.y0, seg.DeltaY(), u));
    PieceIsQuadratic(g, seg, row, column, u);
  }

  /** Strictly above the terrain everywhere on [low, high]. */
  ghost predicate AboveTerrain(g: ElevationGrid, seg: Segment, low: real, high: real)
    requires g.Valid() && Inside(g, seg) && 0.0 <= low && high <= 1.0
  {
    forall u :: low <= u <= high ==> TerrainClearance(g, seg, u) > 0.0
  }

  /** The first point of [low, high] at or below the terrain. */
  ghost predicate FirstAt(g: ElevationGrid, seg: Segment, low: real, high: real, u: real)
    requires g.Valid() && Inside(g, seg) && 0.0 <= low && high <= 1.0
  {
    && low <= u <= high && TerrainClearance(g, seg, u) <= 0.0
    && forall w :: low <= w < u ==> TerrainClearance(g, seg, w) > 0.0
  }

  /** One piece: the least root of its polynomial is its first contact. */
  method PieceContact(g: ElevationGrid, seg: Segment, sqrt: real -> real, a: real, b: real) returns (contact: Option<real>)
    requires g.Valid() && Inside(g, seg) && IsSquareRoot(sqrt)
    requires 0.0 <= a < b <= 1.0 && UncrossedPiece(g, seg, a, b)
    ensures contact.None? ==> AboveTerrain(g, seg, a, b)
    ensures contact.Some? ==> FirstAt(g, seg, a, b, contact.value)
  {
    var middle := (a + b) / 2.0;
    var column := CellIndex(g.originX, g.cell, g.cols, Along(seg.x0, seg.DeltaX(), middle));
    var row := CellIndex(g.originY, g.cell, g.rows, Along(seg.y0, seg.DeltaY(), middle));
    var p := PieceCoefficients(g, seg, row, column);
    forall u | a <= u <= b ensures TerrainClearance(g, seg, u) == Clearance(p.quadratic, p.linear, p.constant, u) {
      PieceClearance(g, seg, a, b, u);
    }
    hide TerrainClearance, Clearance, PieceCoefficients, UncrossedPiece, IsSquareRoot;
    contact := SmallestClearanceRoot(sqrt, p.quadratic, p.linear, p.constant, a, b);
  }

  /** Every interior crossing of a grid line is among the breakpoints. */
  ghost predicate AllCrossings(g: ElevationGrid, seg: Segment, breakpoints: set<real>) {
    && (forall u :: 0.0 < u < 1.0 && CrossesAt(g.originX, g.cell, g.cols, seg.x0, seg.DeltaX(), u) ==> u in breakpoints)
    && (forall u :: 0.0 < u < 1.0 && CrossesAt(g.originY, g.cell, g.rows, seg.y0, seg.DeltaY(), u) ==> u in breakpoints)
  }

  /** Neighbours in the sorted breakpoints have no crossing between them. */
  lemma NeighboursUncrossed(g: ElevationGrid, seg: Segment, breakpoints: set<real>, i: nat)
    requires AllCrossings(g, seg, breakpoints)
    requires i + 1 < |Sorted(breakpoints)| && 0.0 <= Sorted(breakpoints)[i] && Sorted(breakpoints)[i + 1] <= 1.0
    ensures UncrossedPiece(g, seg, Sorted(breakpoints)[i], Sorted(breakpoints)[i + 1])
  {
    var ordered := Sorted(breakpoints);
    hide CrossesAt, Sorted;
    forall u | ordered[i] < u < ordered[i + 1] ensures u !in breakpoints { OutsideGap(breakpoints, i, u); }
  }

  lemma OutsideGap(breakpoints: set<real>, i: nat, u: real)
    requires i + 1 < |Sorted(breakpoints)|
    ensures u in breakpoints ==> u <= Sorted(breakpoints)[i] || u >= Sorted(breakpoints)[i + 1]
  {
    var ordered := Sorted(breakpoints);
    if u in breakpoints {
      assert u in ordered;
      var k :| 0 <= k < |ordered| && ordered[k] == u;
      assert k <= i ==> ordered[k] <= ordered[i];
    }
  }

  /** The ends of the segment and its crossings of grid lines. */
  method PieceBreakpoints(g: ElevationGrid, seg: Segment) returns (breakpoints: set<real>)
    requires g.Valid()
    ensures AllCrossings(g, seg, breakpoints)
    ensures 0.0 in breakpoints && 1.0 in breakpoints && forall u :: u in breakpoints ==> 0.0 <= u <= 1.0
  {
    hide CrossesAt;
    var alongX := AxisBreakpoints(g.originX, g.cell, g.cols, seg.x0, seg.DeltaX());
    var alongY := AxisBreakpoints(g.originY, g.cell, g.rows, seg.y0, seg.DeltaY());
    breakpoints := {0.0, 1.0} + alongX + alongY;
  }

  /** None exactly when the segment stays strictly above the terrain on (0, 1]; otherwise its first contact. */
  method FirstDescentCrossing(g: ElevationGrid, seg: Segment, sqrt: real -> real) returns (contact: Option<real>)
    requires g.Valid() && Inside(g, seg) && IsSquareRoot(sqrt)
    requires TerrainClearance(g, seg, 0.0) > 0.0
    ensures contact.None? <==> AboveTerrain(g, seg, 0.0, 1.0)
    ensures contact.Some? ==> contact.value > 0.0 && FirstAt(g, seg, 0.0, 1.0, contact.value)
  {
    hide TerrainClearance, AllCrossings, Sorted, UncrossedPiece, IsSquareRoot;
    var breakpoints := PieceBreakpoints(g, seg);
    var ordered := Sorted(breakpoints);
    EndsOfPieces(breakpoints);
    for i := 0 to |ordered| - 1
      invariant AboveTerrain(g, seg, 0.0, ordered[i])
    {
      NeighboursUncrossed(g, seg, breakpoints, i);
      contact := PieceContact(g, seg, sqrt, ordered[i], ordered[i + 1]);
      if contact.Some? { return; }
    }
    contact := None;
  }

  /** The pieces run from 0 to 1. */
  lemma EndsOfPieces(breakpoints: set<real>)
    requires 0.0 in breakpoints && 1.0 in breakpoints && forall u :: u in breakpoints ==> 0.0 <= u <= 1.0
    ensures var ordered := Sorted(breakpoints);
            && |ordered| >= 2 && ordered[0] == 0.0 && ordered[|ordered| - 1] == 1.0
            && forall i :: 0 <= i < |ordered| ==> 0.0 <= ordered[i] <= 1.0
  {
    var ordered := Sorted(breakpoints);
    assert 0.0 in ordered && 1.0 in ordered;
    var i :| 0 <= i < |ordered| && ordered[i] == 0.0;
    var j :| 0 <= j < |ordered| && ordered[j] == 1.0;
    assert ordered[0] in breakpoints && ordered[|ordered| - 1] in breakpoints;
    assert i == 0 && j == |ordered| - 1;
    forall k | 0 <= k < |ordered| ensures 0.0 <= ordered[k] <= 1.0 { assert ordered[k] in breakpoints; }
  }
}
