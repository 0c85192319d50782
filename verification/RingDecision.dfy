/** The overlap decision told from the rings: which boundary points lie inside the other ring, and which edges run side by side. */
module RingDecision {
  import opened Common
  import opened ClearanceRoots
  import opened Segments
  import opened SegmentMeetings
  import opened Rings
  import opened RingParity
  import opened RingOverlap

  // -- split edges

  lemma SharedOnBoundary(a: Point, b: Point, w: seq<Point>, j: nat, x: real)
    requires j < |w| && Shared(a, b, w[j], EdgeEnd(w, j), x)
    ensures OnBoundary(w, At(a, b, x))
  {
    OnSegmentExactly(At(a, b, x), w[j], EdgeEnd(w, j));
    hide PointOnSegment, At;
  }

  /** A cut other than the edge's ends is a parameter of a meeting with some edge of the ring, and so on its boundary. */
  lemma {:induction false} CutIsShared(a: Point, b: Point, w: seq<Point>, n: nat, x: real)
    requires a != b && n <= |w| && x in Splits(a, b, w, n) && 0.0 < x < 1.0
    ensures OnBoundary(w, At(a, b, x))
  {
    hide IntersectionParams, OnBoundary, At, Shared;
    if n > 0 {
      if x in Splits(a, b, w, n - 1) {
        CutIsShared(a, b, w, n - 1, x);
      } else {
        var params := IntersectionParams(a, b, w[n - 1], EdgeEnd(w, n - 1));
        ParamsOrdered(a, b, w[n - 1], EdgeEnd(w, n - 1));
        ParamsExactly(a, b, w[n - 1], EdgeEnd(w, n - 1), x);
        SharedOnBoundary(a, b, w, n - 1, x);
      }
    }
  }

  lemma {:induction false} ParamsAreCuts(a: Point, b: Point, w: seq<Point>, n: nat, j: nat)
    requires a != b && j < n <= |w|
    ensures forall x :: x in IntersectionParams(a, b, w[j], EdgeEnd(w, j)) ==> x in Splits(a, b, w, n)
  {
    hide IntersectionParams;
    if j < n - 1 { ParamsAreCuts(a, b, w, n - 1, j); }
  }

  /** Between two neighbouring cuts lies every parameter that is no cut. */
  lemma {:induction false} Bracket(cuts: seq<real>, t: real, n: nat) returns (k: nat)
    requires forall i, j :: 0 <= i < j < |cuts| ==> cuts[i] < cuts[j]
    requires 0 < n < |cuts| && cuts[0] < t < cuts[n] && t !in cuts
    ensures k + 1 < |cuts| && cuts[k] < t < cuts[k + 1]
    decreases n
  {
    if cuts[n - 1] < t { k := n - 1; } else { k := Bracket(cuts, t, n - 1); }
  }

  lemma Within(a: Point, b: Point, t: real, m: real, s: real)
    ensures At(At(a, b, t), At(a, b, m), s) == At(a, b, t + (m - t) * s)
  {
    WithinCoordinates(a.x, b.x - a.x, t, m, s);
    WithinCoordinates(a.y, b.y - a.y, t, m, s);
  }

  lemma WithinCoordinates(c: real, r: real, t: real, m: real, s: real)
    ensures (c + r * t) + ((c + r * m) - (c + r * t)) * s == c + r * (t + (m - t) * s)
  {
    assert (c + r * m) - (c + r * t) == r * (m - t);
    assert r * (m - t) * s == r * ((m - t) * s);
  }

  lemma BetweenStays(low: real, high: real, t: real, m: real, s: real)
    requires low < t < high && low < m < high && 0.0 <= s <= 1.0
    ensures low < t + (m - t) * s < high
  {
    var e := (m - t) * s;
    if m >= t { ShareOf(m - t, s, e); } else { Negated(m - t, t - m, s); ShareOf(t - m, s, -e); }
    assert low < t + e < high;
  }

  lemma Negated(d: real, e: real, s: real)
    requires e == -d
    ensures d * s == -(e * s)
  {
  }

  lemma ShareOf(y: real, s: real, e: real)
    requires y >= 0.0 && 0.0 <= s <= 1.0 && e == y * s
    ensures 0.0 <= e <= y
  {
    assert y * (1.0 - s) >= 0.0;
    assert y * (1.0 - s) == y - e;
  }

  /** A stretch that reaches between two neighbouring cuts covers everything between them. */
  lemma StretchCovers(params: seq<real>, cuts: seq<real>, k: nat, x: real, t: real)
    requires forall i, j :: 0 <= i < j < |cuts| ==> cuts[i] < cuts[j]
    requires k + 1 < |cuts| && cuts[k] < x < cuts[k + 1] && cuts[k] < t < cuts[k + 1]
    requires InStretch(params, x) && forall y :: y in params ==> y in cuts
    ensures InStretch(params, t)
  {
    assert params[0] in params && params[|params| - 1] in params;
    var i :| 0 <= i < |cuts| && cuts[i] == params[0];
    var j :| 0 <= j < |cuts| && cuts[j] == params[|params| - 1];
    assert i <= k && k + 1 <= j;
  }

  lemma SharedReversed(a: Point, b: Point, c: Point, d: Point, x: real)
    requires Shared(a, b, c, d, x)
    ensures Shared(a, b, d, c, x)
  {
    var u: real :| 0.0 <= u <= 1.0 && At(a, b, x) == At(c, d, u);
    StepBackwards(c, d, u);
    hide At;
    assert At(a, b, x) == At(d, c, 1.0 - u);
  }

  /** Edge i, into vertex i, is edge j out of the vertex before. */
  lemma EdgeInto(w: seq<Point>, i: nat) returns (j: nat)
    requires i < |w|
    ensures j < |w| && w[j] == Before(w, i) && EdgeEnd(w, j) == w[i]
  {
    j := if i == 0 then |w| - 1 else i - 1;
  }

  /** Parameters t and m lie between two neighbouring cuts of edge a-b. */
  ghost predicate SamePart(a: Point, b: Point, w: seq<Point>, cuts: seq<real>, k: nat, t: real, m: real)
    requires a != b
  {
    && k + 1 < |cuts| && cuts[k] < t < cuts[k + 1] && cuts[k] < m < cuts[k + 1]
    && (forall i, j :: 0 <= i < j < |cuts| ==> cuts[i] < cuts[j])
    && (forall x :: x in Splits(a, b, w, |w|) ==> x in cuts)
  }

  /** No edge of the ring meets the stretch between them if the first of them is off the boundary. */
  lemma EdgeNotBetween(a: Point, b: Point, w: seq<Point>, cuts: seq<real>, k: nat, t: real, m: real, j: nat)
    requires a != b && SamePart(a, b, w, cuts, k, t, m) && !OnBoundary(w, At(a, b, t)) && 0.0 <= cuts[k] && cuts[k + 1] <= 1.0 && j < |w|
    ensures !Meet(At(a, b, t), At(a, b, m), EdgeEnd(w, j), w[j])
  {
    hide Splits, OnBoundary, IntersectionParams, Shared, Meet, At;
    if Meet(At(a, b, t), At(a, b, m), EdgeEnd(w, j), w[j]) {
      var x := MeetingBetween(a, b, t, m, cuts[k], cuts[k + 1], EdgeEnd(w, j), w[j]);
      SharedReversed(a, b, EdgeEnd(w, j), w[j], x);
      var params := IntersectionParams(a, b, w[j], EdgeEnd(w, j));
      ParamsExactly(a, b, w[j], EdgeEnd(w, j), x);
      ParamsAreCuts(a, b, w, |w|, j);
      StretchCovers(params, cuts, k, x, t);
      ParamsExactly(a, b, w[j], EdgeEnd(w, j), t);
      SharedOnBoundary(a, b, w, j, t);
    }
  }

  /** Nothing of the ring lies between two parameters with no cut between them. */
  lemma NothingBetween(a: Point, b: Point, w: seq<Point>, cuts: seq<real>, k: nat, t: real, m: real)
    requires a != b && SamePart(a, b, w, cuts, k, t, m) && !OnBoundary(w, At(a, b, t)) && 0.0 <= cuts[k] && cuts[k + 1] <= 1.0
    ensures Avoids(w, At(a, b, t), At(a, b, m))
  {
    hide SamePart, OnBoundary, Meet, At;
    forall i | 0 <= i < |w| ensures !Meet(At(a, b, t), At(a, b, m), w[i], Before(w, i)) {
      var j := EdgeInto(w, i);
      EdgeNotBetween(a, b, w, cuts, k, t, m, j);
    }
  }

  lemma MeetingBetween(a: Point, b: Point, t: real, m: real, low: real, high: real, c: Point, d: Point) returns (x: real)
    requires Meet(At(a, b, t), At(a, b, m), c, d) && low < t < high && low < m < high
    ensures low < x < high && Shared(a, b, c, d, x)
  {
    var s: real, u: real :| 0.0 <= s <= 1.0 && 0.0 <= u <= 1.0 && At(At(a, b, t), At(a, b, m), s) == At(c, d, u);
    Within(a, b, t, m, s);
    BetweenStays(low, high, t, m, s);
    hide At;
    x := t + (m - t) * s;
  }

  /** Some inner point of the edge lies strictly inside the ring. */
  ghost predicate InnerPointInside(a: Point, b: Point, w: seq<Point>) { exists t: real :: InsideAt(a, b, w, t) }

  predicate InsideAt(a: Point, b: Point, w: seq<Point>, t: real) { 0.0 < t < 1.0 && StrictlyInside(w, At(a, b, t)) }

  /** The cuts next to an inner point off the boundary. */
  lemma CutsAround(a: Point, b: Point, w: seq<Point>, t: real) returns (k: nat)
    requires a != b && 0.0 < t < 1.0 && !OnBoundary(w, At(a, b, t))
    ensures var cuts := Sorted(Splits(a, b, w, |w|));
            && SamePart(a, b, w, cuts, k, t, t) && k + 1 < |cuts| && 0.0 <= cuts[k] && cuts[k + 1] <= 1.0
  {
    var cuts := Sorted(Splits(a, b, w, |w|));
    hide Sorted, Splits, At, OnBoundary;
    if t in Splits(a, b, w, |w|) { CutIsShared(a, b, w, |w|, t); }
    SplitsInUnit(a, b, w, |w|);
    var first := IndexOf(cuts, 0.0);
    var last := IndexOf(cuts, 1.0);
    assert cuts[0] in cuts;
    k := Bracket(cuts, t, last);
    assert cuts[k] in cuts && cuts[k + 1] in cuts;
  }

  lemma IndexOf(cuts: seq<real>, x: real) returns (i: nat)
    requires x in cuts
    ensures i < |cuts| && cuts[i] == x
  {
    i :| 0 <= i < |cuts| && cuts[i] == x;
  }

  lemma PartHere(a: Point, b: Point, w: seq<Point>, t: real)
    requires a != b && InsideAt(a, b, w, t)
    ensures PartInside(a, b, w)
  {
    hide *;
    InsideMeaning(a, b, w, t);
    var k := CutsAround(a, b, w, t);
    PartAround(a, b, w, Sorted(Splits(a, b, w, |w|)), k, t);
  }

  lemma InsideMeaning(a: Point, b: Point, w: seq<Point>, t: real)
    requires InsideAt(a, b, w, t)
    ensures 0.0 < t < 1.0 && StrictlyInside(w, At(a, b, t)) && !OnBoundary(w, At(a, b, t))
  {
    hide At, Parity, OnBoundary;
  }

  lemma PartAround(a: Point, b: Point, w: seq<Point>, cuts: seq<real>, k: nat, t: real)
    requires a != b && cuts == Sorted(Splits(a, b, w, |w|)) && SamePart(a, b, w, cuts, k, t, t) && k + 1 < |cuts|
    requires 0.0 <= cuts[k] && cuts[k + 1] <= 1.0 && StrictlyInside(w, At(a, b, t))
    ensures PartInside(a, b, w)
  {
    hide *;
    var m := (cuts[k] + cuts[k + 1]) / 2.0;
    SamePartMoves(a, b, w, cuts, k, t, m);
    InsideOffBoundary(w, At(a, b, t));
    NothingBetween(a, b, w, cuts, k, t, m);
    AvoidingStepStays(w, At(a, b, t), At(a, b, m));
    MiddleFound(a, b, w, cuts, k);
  }

  lemma InsideOffBoundary(w: seq<Point>, z: Point)
    requires StrictlyInside(w, z)
    ensures !OnBoundary(w, z)
  {
  }

  lemma MiddleFound(a: Point, b: Point, w: seq<Point>, cuts: seq<real>, k: nat)
    requires a != b && cuts == Sorted(Splits(a, b, w, |w|)) && k + 1 < |cuts|
    requires StrictlyInside(w, At(a, b, (cuts[k] + cuts[k + 1]) / 2.0))
    ensures PartInside(a, b, w)
  {
    hide StrictlyInside, At, Sorted, Splits;
    assert MiddleInside(a, b, w, cuts, k);
  }

  lemma SamePartMoves(a: Point, b: Point, w: seq<Point>, cuts: seq<real>, k: nat, t: real, m: real)
    requires a != b && SamePart(a, b, w, cuts, k, t, t) && m == (cuts[k] + cuts[k + 1]) / 2.0
    ensures k + 1 < |cuts| && SamePart(a, b, w, cuts, k, t, m)
  {
    hide Splits;
  }

  /** The test of the split edge's middles finds exactly whether an inner point of the edge lies strictly inside the ring. */
  lemma PartExactly(a: Point, b: Point, w: seq<Point>)
    requires a != b
    ensures PartInside(a, b, w) <==> InnerPointInside(a, b, w)
  {
    hide StrictlyInside, At, Splits;
    if PartInside(a, b, w) {
      var cuts := Sorted(Splits(a, b, w, |w|));
      var k :| 0 <= k < |cuts| - 1 && MiddleInside(a, b, w, cuts, k);
      SplitsInUnit(a, b, w, |w|);
      assert cuts[k] in cuts && cuts[k + 1] in cuts && cuts[k] < cuts[k + 1];
      hide Sorted, PartInside;
      assert InsideAt(a, b, w, (cuts[k] + cuts[k + 1]) / 2.0);
    } else if t: real :| InsideAt(a, b, w, t) {
      PartHere(a, b, w, t);
    }
  }

  // -- boundary points inside the other ring

  /** Some boundary point of v lies strictly inside w. */
  ghost predicate BoundaryInside(v: seq<Point>, w: seq<Point>) { exists z: Point :: OnBoundary(v, z) && StrictlyInside(w, z) }

  lemma PointOfEdge(v: seq<Point>, z: Point) returns (i: nat, t: real)
    requires OnBoundary(v, z)
    ensures i < |v| && 0.0 <= t <= 1.0 && At(v[i], EdgeEnd(v, i), t) == z
  {
    var k :| 0 <= k < |v| && PointOnSegment(z, v[k], EdgeEnd(v, k));
    OnSegmentExactly(z, v[k], EdgeEnd(v, k));
    hide PointOnSegment, At;
    i := k;
    t :| 0.0 <= t <= 1.0 && At(v[i], EdgeEnd(v, i), t) == z;
  }

  lemma EdgePointOnBoundary(v: seq<Point>, i: nat, t: real)
    requires i < |v| && 0.0 <= t <= 1.0
    ensures OnBoundary(v, At(v[i], EdgeEnd(v, i), t))
  {
    OnSegmentExactly(At(v[i], EdgeEnd(v, i), t), v[i], EdgeEnd(v, i));
    hide PointOnSegment, At;
  }

  lemma EdgeEndIsVertex(v: seq<Point>, i: nat) returns (j: nat)
    requires i < |v|
    ensures j < |v| && v[j] == EdgeEnd(v, i)
  {
    j := if i + 1 < |v| then i + 1 else 0;
  }

  /** The vertex test and the split-edge test together find exactly the boundary points inside the other ring. */
  lemma BoundaryExactly(v: seq<Point>, w: seq<Point>)
    requires IsRing(v)
    ensures VertexInside(v, w) || SomePartInside(v, w) <==> BoundaryInside(v, w)
  {
    hide StrictlyInside, OnBoundary, At, PartInside, InnerPointInside;
    if VertexInside(v, w) {
      var i :| 0 <= i < |v| && StrictlyInside(w, v[i]);
      Ends(v[i], EdgeEnd(v, i));
      EdgePointOnBoundary(v, i, 0.0);
    }
    if SomePartInside(v, w) {
      var i :| 0 <= i < |v| && v[i] != EdgeEnd(v, i) && PartInside(v[i], EdgeEnd(v, i), w);
      PartExactly(v[i], EdgeEnd(v, i), w);
      var t := InnerPoint(v[i], EdgeEnd(v, i), w);
      EdgePointOnBoundary(v, i, t);
    }
    if z: Point :| OnBoundary(v, z) && StrictlyInside(w, z) {
      BoundaryFound(v, w, z);
    }
  }

  lemma InnerPoint(a: Point, b: Point, w: seq<Point>) returns (t: real)
    requires InnerPointInside(a, b, w)
    ensures 0.0 < t < 1.0 && StrictlyInside(w, At(a, b, t))
  {
    hide StrictlyInside, At;
    t :| InsideAt(a, b, w, t);
  }

  lemma BoundaryFound(v: seq<Point>, w: seq<Point>, z: Point)
    requires IsRing(v) && OnBoundary(v, z) && StrictlyInside(w, z)
    ensures VertexInside(v, w) || SomePartInside(v, w)
  {
    hide *;
    var i, t := PointOfEdge(v, z);
    if t == 0.0 || t == 1.0 {
      var j := EndIsVertex(v, i, t, z);
      VertexFound(v, w, j);
    } else {
      PartFound(v, w, i, t);
    }
  }

  lemma EndIsVertex(v: seq<Point>, i: nat, t: real, z: Point) returns (j: nat)
    requires i < |v| && (t == 0.0 || t == 1.0) && At(v[i], EdgeEnd(v, i), t) == z
    ensures j < |v| && v[j] == z
  {
    j := EdgeEndIsVertex(v, i);
    Ends(v[i], EdgeEnd(v, i));
    if t == 0.0 { j := i; }
    hide At;
  }

  lemma VertexFound(v: seq<Point>, w: seq<Point>, j: nat)
    requires j < |v| && StrictlyInside(w, v[j])
    ensures VertexInside(v, w)
  {
    hide StrictlyInside;
  }

  lemma PartFound(v: seq<Point>, w: seq<Point>, i: nat, t: real)
    requires IsRing(v) && i < |v| && 0.0 < t < 1.0 && StrictlyInside(w, At(v[i], EdgeEnd(v, i), t))
    ensures SomePartInside(v, w)
  {
    EdgesHaveLength(v, i);
    hide StrictlyInside, At, IsRing, PartInside, EdgeEnd;
    assert InsideAt(v[i], EdgeEnd(v, i), w, t);
    PartHere(v[i], EdgeEnd(v, i), w, t);
  }

  /** Where edges cross properly, a boundary point of one ring lies inside the other. */
  lemma CrossingFound(v: seq<Point>, w: seq<Point>)
    requires Simple(v) && EdgesCross(v, w)
    ensures BoundaryInside(w, v)
  {
    hide Simple, ProperCross, At, Determinant, Wedge, InsideEdge, Direction, StrictlyInside, OnBoundary;
    var i, j :| 0 <= i < |v| && 0 <= j < |w| && ProperCross(v[i], EdgeEnd(v, i), w[j], EdgeEnd(w, j));
    ProperCrossExactly(v[i], EdgeEnd(v, i), w[j], EdgeEnd(w, j));
    WedgeIsDeterminant(v[i], EdgeEnd(v, i), w[j], EdgeEnd(w, j));
    var t: real, u: real :| 0.0 < t < 1.0 && 0.0 < u < 1.0 && At(v[i], EdgeEnd(v, i), t) == At(w[j], EdgeEnd(w, j), u);
    InnerPointsOnOneEdge(v, i, t);
    var x := InsideAlongCrossing(v, i, t, w[j], EdgeEnd(w, j), u);
    EdgePointOnBoundary(w, j, x);
  }

  // -- edges side by side

  /** The second edge heads the way of the first, not against it. */
  predicate SameHeading(a: Point, b: Point, c: Point, d: Point) { Dot(Direction(a, b), Direction(c, d)) > 0.0 }

  /** Twice the signed area is positive for one exactly if it is for the other. */
  predicate SameTurn(v: seq<Point>, w: seq<Point>) { TwiceArea(v, |v|) > 0.0 <==> TwiceArea(w, |w|) > 0.0 }

  lemma NormalsDot(a: Point, b: Point, c: Point, d: Point, first: bool, second: bool)
    ensures Dot(InteriorNormal(a, b, first), InteriorNormal(c, d, second)) ==
              if first == second then Dot(Direction(a, b), Direction(c, d)) else -Dot(Direction(a, b), Direction(c, d))
  {
  }

  /** Parallel directions are not square to each other. */
  lemma ParallelNotSquare(a: Point, b: Point, c: Point, d: Point)
    requires a != b && c != d && Determinant(a, b, c, d) == 0.0
    ensures Dot(Direction(a, b), Direction(c, d)) != 0.0
  {
    LengthPositive(a, b);
    LengthPositive(c, d);
    SignOfProduct(LengthSquared(a, b), LengthSquared(c, d));
    Lagrange(b.x - a.x, b.y - a.y, d.x - c.x, d.y - c.y);
    var dot := Dot(Direction(a, b), Direction(c, d));
    assert dot * dot == LengthSquared(a, b) * LengthSquared(c, d);
    assert dot == 0.0 ==> dot * dot == 0.0;
  }

  lemma Lagrange(px: real, py: real, qx: real, qy: real)
    requires px * qy - py * qx == 0.0
    ensures (px * qx + py * qy) * (px * qx + py * qy) == (px * px + py * py) * (qx * qx + qy * qy)
  {
    var k := px * qy - py * qx;
    assert (px * px + py * py) * (qx * qx + qy * qy) == (px * qx + py * qy) * (px * qx + py * qy) + k * k;
  }

  /** Two edges count as side by side exactly if they share a piece and head the same way just when the rings turn the same way. */
  lemma SameSideMeaning(v: seq<Point>, w: seq<Point>, i: nat, j: nat)
    requires IsRing(v) && IsRing(w) && i < |v| && j < |w|
    ensures SameSideAt(v, w, i, j) <==>
              && ShareTwo(v[i], EdgeEnd(v, i), w[j], EdgeEnd(w, j))
              && (SameHeading(v[i], EdgeEnd(v, i), w[j], EdgeEnd(w, j)) <==> SameTurn(v, w))
  {
    var a, b, c, d := v[i], EdgeEnd(v, i), w[j], EdgeEnd(w, j);
    EdgesHaveLength(v, i);
    EdgesHaveLength(w, j);
    OverlapExactly(a, b, c, d);
    NormalsDot(a, b, c, d, CounterClockwise(v), CounterClockwise(w));
    if OverlapInterval(a, b, c, d).Some? {
      assert Determinant(a, b, c, d) == 0.0 by { hide Param, Orientation, Cross; }
      ParallelNotSquare(a, b, c, d);
    }
    hide OverlapInterval, ShareTwo, Dot, InteriorNormal, Direction, TwiceArea;
  }

  // -- the decision

  lemma SideBySideNotApart(v: seq<Point>, w: seq<Point>)
    requires IsRing(v) && IsRing(w) && SameSide(v, w)
    ensures !BoundsApart(v, w)
  {
    hide SameSideAt, BoundsApart, IsRing, ShareTwo, SameHeading, SameTurn;
    var i, j :| 0 <= i < |v| && 0 <= j < |w| && SameSideAt(v, w, i, j);
    SameSideMeaning(v, w, i, j);
    var z := SharedPoint(v[i], EdgeEnd(v, i), w[j], EdgeEnd(w, j));
    WithinBounds(v, i, z);
    WithinBounds(w, j, z);
    BoundsMeet(v, w, z);
  }

  lemma SharedPoint(a: Point, b: Point, c: Point, d: Point) returns (z: Point)
    requires ShareTwo(a, b, c, d)
    ensures WithinBox(z, a, b) && WithinBox(z, c, d)
  {
    var t1: real, u1: real, t2: real, u2: real :| MeetsAt(a, b, c, d, t1, u1) && MeetsAt(a, b, c, d, t2, u2) && t1 != t2;
    z := At(a, b, t1);
    OnSegmentExactly(z, a, b);
    OnSegmentExactly(z, c, d);
    hide At, Orientation, WithinBox;
  }

  predicate InBounds(v: seq<Point>, z: Point)
    requires v != []
  {
    Lowest(Xs(v)) <= z.x <= Highest(Xs(v)) && Lowest(Ys(v)) <= z.y <= Highest(Ys(v))
  }

  lemma WithinBounds(v: seq<Point>, i: nat, z: Point)
    requires i < |v| && WithinBox(z, v[i], EdgeEnd(v, i))
    ensures InBounds(v, z)
  {
    var j := EdgeEndIsVertex(v, i);
    LowestBelow(Xs(v), i);
    LowestBelow(Xs(v), j);
    LowestBelow(Ys(v), i);
    LowestBelow(Ys(v), j);
    hide Lowest, Highest;
  }

  lemma BoundsMeet(v: seq<Point>, w: seq<Point>, z: Point)
    requires v != [] && w != [] && InBounds(v, z) && InBounds(w, z)
    ensures !BoundsApart(v, w)
  {
    hide Lowest, Highest, Xs, Ys;
  }

  lemma BoundaryShares(v: seq<Point>, w: seq<Point>)
    requires Simple(v) && BoundaryInside(v, w)
    ensures ShareInterior(v, w)
  {
    assert IsRing(v);
    hide Simple, BoundaryInside, VertexInside, SomePartInside, ShareInterior, IsRing;
    BoundaryExactly(v, w);
    OneWay(v, w);
  }

  /** The decision holds exactly if a boundary point of one valid ring lies strictly inside the other, or edges run side by side. */
  lemma DecisionExactly(v: seq<Point>, w: seq<Point>)
    requires Simple(v) && Simple(w)
    ensures InteriorsOverlap(v, w) <==> BoundaryInside(v, w) || BoundaryInside(w, v) || SameSide(v, w)
  {
    assert IsRing(v) && IsRing(w);
    hide Simple, BoundaryInside, VertexInside, SomePartInside, ShareInterior, IsRing, EdgesCross, SameSide, BoundsApart, ShareArea;
    BoundaryExactly(v, w);
    BoundaryExactly(w, v);
    if EdgesCross(v, w) { CrossingFound(v, w); }
    if BoundsApart(v, w) {
      ApartBoundsShareNothing(v, w);
      if BoundaryInside(v, w) { BoundaryShares(v, w); }
      if BoundaryInside(w, v) { BoundaryShares(w, v); SharedSwaps(w, v); }
      if SameSide(v, w) { SideBySideNotApart(v, w); }
    }
  }
}
