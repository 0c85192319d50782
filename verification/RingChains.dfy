/** Features declared to lie in a hole: what the check of their vertices and crossings promises, and what it misses. */
module RingChains {
  import opened Common
  import opened ClearanceRoots
  import opened Segments
  import opened SegmentMeetings
  import opened Rings
  import opened RingParity
  import opened RingOverlap
  import opened RingDecision
  import opened RingRegions
  import RingValidation

  // -- the check

  /** How many edges a chain has; edge i runs from vertex i to the next, the last of a closed chain back to the first. */
  function EdgeCount(chain: seq<Point>, closed: bool): nat {
    if |chain| < 2 then 0 else if closed then |chain| else |chain| - 1
  }

  ghost predicate CrossesAt(chain: seq<Point>, ring: seq<Point>, i: nat)
    requires i < |chain|
  {
    exists j :: 0 <= j < |ring| && ProperCross(chain[i], EdgeEnd(chain, i), ring[j], EdgeEnd(ring, j))
  }

  ghost predicate ChainCrosses(chain: seq<Point>, ring: seq<Point>, closed: bool) {
    exists i: nat :: i < EdgeCount(chain, closed) && CrossesAt(chain, ring, i)
  }

  method ChainProperlyCrossesRing(chain: seq<Point>, ring: seq<Point>, closed: bool) returns (found: bool)
    ensures found == ChainCrosses(chain, ring, closed)
  {
    if |chain| < 2 { return false; }
    var count := if closed then |chain| else |chain| - 1;
    for i := 0 to count
      invariant forall k: nat :: k < i ==> !CrossesAt(chain, ring, k)
    {
      for j := 0 to |ring|
        invariant forall k :: 0 <= k < j ==> !ProperCross(chain[i], EdgeEnd(chain, i), ring[k], EdgeEnd(ring, k))
      {
        if ProperCross(chain[i], EdgeEnd(chain, i), ring[j], EdgeEnd(ring, j)) {
          assert CrossesAt(chain, ring, i);
          return true;
        }
      }
    }
    found := false;
  }

  /** Inside the ring or on its boundary. */
  predicate Covered(ring: seq<Point>, p: Point) { OnBoundary(ring, p) || StrictlyInside(ring, p) }

  datatype HoleError = UnknownHole | VertexOutside(index: nat) | CrossesBoundary

  ghost predicate Accepted(chain: seq<Point>, ring: seq<Point>, closed: bool) {
    (forall i :: 0 <= i < |chain| ==> Covered(ring, chain[i])) && !ChainCrosses(chain, ring, closed)
  }

  /** The check of a feature against its declared hole: the hole is known, every vertex is covered, no edge crosses the boundary. */
  method RequireWithinDeclaredHole(holes: map<string, seq<Point>>, id: string, chain: seq<Point>, closed: bool) returns (error: Option<HoleError>)
    requires forall h :: h in holes ==> holes[h] != []
    ensures error == Some(UnknownHole) <==> id !in holes
    ensures id in holes ==> (error == None <==> Accepted(chain, holes[id], closed))
    ensures forall i: nat :: error == Some(VertexOutside(i)) ==> id in holes && i < |chain| && !Covered(holes[id], chain[i]) && forall k :: 0 <= k < i ==> Covered(holes[id], chain[k])
    ensures error == Some(CrossesBoundary) <==> id in holes && ChainCrosses(chain, holes[id], closed) && forall i :: 0 <= i < |chain| ==> Covered(holes[id], chain[i])
  {
    if id !in holes { return Some(UnknownHole); }
    var ring := holes[id];
    hide OnBoundary, StrictlyInside, ChainCrosses;
    for i := 0 to |chain|
      invariant forall k :: 0 <= k < i ==> Covered(ring, chain[k])
    {
      var contained := RingValidation.Contains(ring, chain[i]);
      if !contained { return Some(VertexOutside(i)); }
    }
    var crosses := ChainProperlyCrossesRing(chain, ring, closed);
    error := if crosses then Some(CrossesBoundary) else None;
  }

  // -- what is promised

  /** Every point of the segment is covered. */
  ghost predicate SegmentStays(a: Point, b: Point, ring: seq<Point>) { forall t: real :: 0.0 <= t <= 1.0 ==> Covered(ring, At(a, b, t)) }

  /** The feature lies within the ring: every vertex and every point of every edge is covered. */
  ghost predicate Stays(chain: seq<Point>, ring: seq<Point>, closed: bool) {
    && (forall i :: 0 <= i < |chain| ==> Covered(ring, chain[i]))
    && (forall i: nat :: i < EdgeCount(chain, closed) ==> SegmentStays(chain[i], EdgeEnd(chain, i), ring))
  }

  /** The middle of one of the parts the ring splits a-b into is not covered. */
  ghost predicate PartLeaves(a: Point, b: Point, ring: seq<Point>)
    requires a != b
  {
    var cuts := Sorted(Splits(a, b, ring, |ring|));
    exists k :: 0 <= k < |cuts| - 1 && MiddleLeaves(a, b, ring, cuts, k)
  }

  predicate MiddleLeaves(a: Point, b: Point, ring: seq<Point>, cuts: seq<real>, k: nat)
    requires k + 1 < |cuts|
  {
    !Covered(ring, At(a, b, (cuts[k] + cuts[k + 1]) / 2.0))
  }

  // -- an edge stays exactly if its ends and the middles of its parts are covered

  lemma MiddleInUnit(a: Point, b: Point, ring: seq<Point>, cuts: seq<real>, k: nat)
    requires a != b && cuts == Sorted(Splits(a, b, ring, |ring|)) && k + 1 < |cuts|
    ensures 0.0 <= (cuts[k] + cuts[k + 1]) / 2.0 <= 1.0
  {
    SplitsInUnit(a, b, ring, |ring|);
    hide Splits;
    assert cuts[k] in cuts && cuts[k + 1] in cuts;
    hide Sorted;
  }

  lemma StayingPartsCovered(a: Point, b: Point, ring: seq<Point>)
    requires a != b && SegmentStays(a, b, ring)
    ensures !PartLeaves(a, b, ring)
  {
    hide Splits, Covered, At;
    if PartLeaves(a, b, ring) {
      var cuts := Sorted(Splits(a, b, ring, |ring|));
      var k :| 0 <= k < |cuts| - 1 && MiddleLeaves(a, b, ring, cuts, k);
      hide Sorted, PartLeaves;
      MiddleInUnit(a, b, ring, cuts, k);
    }
  }

  lemma PartTells(a: Point, b: Point, ring: seq<Point>, cuts: seq<real>, k: nat, t: real)
    requires a != b && cuts == Sorted(Splits(a, b, ring, |ring|)) && SamePart(a, b, ring, cuts, k, t, t) && k + 1 < |cuts|
    requires 0.0 <= cuts[k] && cuts[k + 1] <= 1.0 && !OnBoundary(ring, At(a, b, t)) && !MiddleLeaves(a, b, ring, cuts, k)
    ensures StrictlyInside(ring, At(a, b, t))
  {
    hide *;
    var m := (cuts[k] + cuts[k + 1]) / 2.0;
    MiddleCovered(a, b, ring, cuts, k);
    SamePartMoves(a, b, ring, cuts, k, t, m);
    NothingBetween(a, b, ring, cuts, k, t, m);
    AvoidingLeavesBoundary(ring, At(a, b, t), At(a, b, m));
    AvoidingStepStays(ring, At(a, b, t), At(a, b, m));
  }

  lemma MiddleCovered(a: Point, b: Point, ring: seq<Point>, cuts: seq<real>, k: nat)
    requires k + 1 < |cuts| && !MiddleLeaves(a, b, ring, cuts, k)
    ensures var m := At(a, b, (cuts[k] + cuts[k + 1]) / 2.0); OnBoundary(ring, m) || StrictlyInside(ring, m)
  {
    hide OnBoundary, StrictlyInside;
  }

  lemma InnerPointStays(a: Point, b: Point, ring: seq<Point>, t: real)
    requires a != b && 0.0 < t < 1.0 && !PartLeaves(a, b, ring)
    ensures Covered(ring, At(a, b, t))
  {
    hide Splits, At, OnBoundary, StrictlyInside, SamePart, MiddleLeaves;
    if !OnBoundary(ring, At(a, b, t)) {
      var k := CutsAround(a, b, ring, t);
      PartTells(a, b, ring, Sorted(Splits(a, b, ring, |ring|)), k, t);
    }
  }

  /** A segment stays within the ring exactly if its ends and the middles of its parts do. */
  lemma SegmentStaysExactly(a: Point, b: Point, ring: seq<Point>)
    ensures SegmentStays(a, b, ring) <==> Covered(ring, a) && Covered(ring, b) && (a != b ==> !PartLeaves(a, b, ring))
  {
    hide Covered, At, PartLeaves;
    Ends(a, b);
    PointIsItself(a);
    if SegmentStays(a, b, ring) {
      assert Covered(ring, At(a, b, 0.0)) && Covered(ring, At(a, b, 1.0));
      if a != b { StayingPartsCovered(a, b, ring); }
    } else {
      var t: real :| 0.0 <= t <= 1.0 && !Covered(ring, At(a, b, t));
      if a != b && 0.0 < t < 1.0 && !PartLeaves(a, b, ring) { InnerPointStays(a, b, ring, t); }
    }
  }

  // -- a proper crossing does leave

  /** Of the points just beside a proper crossing one is strictly inside and the other is not even on the boundary. */
  lemma CrossingLeaves(ring: seq<Point>, j: nat, a: Point, b: Point)
    requires Simple(ring) && j < |ring| && ProperCross(a, b, ring[j], EdgeEnd(ring, j))
    ensures !SegmentStays(a, b, ring) && exists t: real :: 0.0 < t < 1.0 && StrictlyInside(ring, At(a, b, t))
  {
    var c, d := ring[j], EdgeEnd(ring, j);
    ProperCrossSwaps(a, b, c, d);
    ProperCrossExactly(c, d, a, b);
    WedgeIsDeterminant(c, d, a, b);
    hide At, ProperCross, Determinant, Wedge, Simple, InsideEdge, Direction, StrictlyInside, OnBoundary, Covered;
    var u: real, t: real :| 0.0 < u < 1.0 && 0.0 < t < 1.0 && At(c, d, u) == At(a, b, t);
    InnerPointsOnOneEdge(ring, j, u);
    var x, y := BothSides(ring, j, u, a, b, t);
    assert !Covered(ring, At(a, b, y));
  }

  lemma BothSides(ring: seq<Point>, j: nat, u: real, a: Point, b: Point, t: real) returns (x: real, y: real)
    requires InsideEdge(ring, j, u) && Wedge(ring[j], EdgeEnd(ring, j), Direction(a, b)) != 0.0
    requires 0.0 < t < 1.0 && At(ring[j], EdgeEnd(ring, j), u) == At(a, b, t)
    ensures 0.0 < x < 1.0 && StrictlyInside(ring, At(a, b, x)) && 0.0 < y < 1.0 && !Covered(ring, At(a, b, y))
  {
    EdgeOfInner(ring, j, u);
    hide *;
    var clear := InnerBox(ring, j, u);
    CrossOnLine(ring[j], EdgeEnd(ring, j), u);
    x, y := StepsBeside(ring, j, u, a, b, t, clear);
    OutsideBeside(ring, j, At(a, b, t), clear, a, b, t, y);
  }

  lemma StepsBeside(ring: seq<Point>, j: nat, u: real, a: Point, b: Point, t: real, clear: real) returns (x: real, y: real)
    requires InsideEdge(ring, j, u) && Wedge(ring[j], EdgeEnd(ring, j), Direction(a, b)) != 0.0
    requires 0.0 < t < 1.0 && At(ring[j], EdgeEnd(ring, j), u) == At(a, b, t) && clear > 0.0
    ensures 0.0 < x < 1.0 && StrictlyInside(ring, At(a, b, x)) && Near(At(a, b, t), At(a, b, x), clear)
    ensures 0.0 < y < 1.0 && !StrictlyInside(ring, At(a, b, y)) && Near(At(a, b, t), At(a, b, y), clear) && y != t
  {
    hide *;
    var width := Width(clear, t);
    var s := BesideEdge(ring, j, u, Direction(a, b), width);
    StillInner(t, s);
    x, y := t + s, t + -s;
    AtIsShift(a, b, t, s);
    AtIsShift(a, b, t, -s);
    if !StrictlyInside(ring, At(a, b, x)) { x, y := y, x; }
    NearerIsNear(At(a, b, t), At(a, b, x), width, clear);
    NearerIsNear(At(a, b, t), At(a, b, y), width, clear);
  }

  lemma Width(clear: real, t: real) returns (width: real)
    requires clear > 0.0 && 0.0 < t < 1.0
    ensures 0.0 < width <= clear && width <= Min(t, 1.0 - t) / 2.0
  {
    width := Min(clear, Min(t, 1.0 - t) / 2.0);
  }

  lemma EdgeOfInner(ring: seq<Point>, j: nat, u: real)
    requires InsideEdge(ring, j, u)
    ensures j < |ring|
  {
  }

  lemma InnerBox(ring: seq<Point>, j: nat, u: real) returns (clear: real)
    requires InsideEdge(ring, j, u)
    ensures clear > 0.0 && ClearOf(ring, At(ring[j], EdgeEnd(ring, j), u), clear, |ring|, {j})
  {
    hide At, PointOnSegment, ClearOf;
    clear := BoxOffRing(ring, At(ring[j], EdgeEnd(ring, j), u), |ring|, {j});
  }

  lemma OutsideBeside(ring: seq<Point>, j: nat, m: Point, clear: real, a: Point, b: Point, t: real, y: real)
    requires j < |ring| && ClearOf(ring, m, clear, |ring|, {j}) && Near(m, At(a, b, y), clear) && !StrictlyInside(ring, At(a, b, y))
    requires Wedge(ring[j], EdgeEnd(ring, j), Direction(a, b)) != 0.0 && Cross(ring[j], EdgeEnd(ring, j), At(a, b, t)) == 0.0 && y != t
    ensures !Covered(ring, At(a, b, y))
  {
    WedgeIsDeterminant(ring[j], EdgeEnd(ring, j), a, b);
    hide At, Wedge, StrictlyInside, Near, Direction, ClearOf, OnBoundary, Cross, PointOnSegment;
    OffEdge(ring[j], EdgeEnd(ring, j), a, b, t, y);
    OffBoundaryInBox(ring, j, m, clear, At(a, b, y));
  }

  /** A segment that meets the edge's line at t, not along it, is on that line nowhere else. */
  lemma OffEdge(c: Point, d: Point, a: Point, b: Point, t: real, y: real)
    requires Determinant(c, d, a, b) != 0.0 && Cross(c, d, At(a, b, t)) == 0.0 && y != t
    ensures !PointOnSegment(At(a, b, y), c, d)
  {
    CrossAlong(c, d, a, b, t);
    CrossAlong(c, d, a, b, y);
    Rates(c, d, a, b);
    var n, f := Determinant(c, d, a, b), Cross(c, d, a);
    NonZero(n, y - t);
    assert n * (y - t) == (f + n * y) - (f + n * t);
    hide Determinant, Cross, At;
  }

  // -- exactly what the check gives

  /** No part of any edge has its middle outside. */
  ghost predicate NoPartLeaves(chain: seq<Point>, ring: seq<Point>, closed: bool) {
    forall i: nat :: i < EdgeCount(chain, closed) && chain[i] != EdgeEnd(chain, i) ==> !PartLeaves(chain[i], EdgeEnd(chain, i), ring)
  }

  lemma RejectedLeaves(chain: seq<Point>, ring: seq<Point>, closed: bool)
    requires Simple(ring) && !Accepted(chain, ring, closed)
    ensures !Stays(chain, ring, closed)
  {
    hide Covered, Simple, SegmentStays, ProperCross;
    if ChainCrosses(chain, ring, closed) {
      var i: nat :| i < EdgeCount(chain, closed) && CrossesAt(chain, ring, i);
      var j :| 0 <= j < |ring| && ProperCross(chain[i], EdgeEnd(chain, i), ring[j], EdgeEnd(ring, j));
      CrossingLeaves(ring, j, chain[i], EdgeEnd(chain, i));
    }
  }

  /** A feature lies within its hole exactly if the check accepts it and no part of an edge between boundary points has its middle outside. */
  lemma StaysExactly(chain: seq<Point>, ring: seq<Point>, closed: bool)
    requires Simple(ring)
    ensures Stays(chain, ring, closed) <==> Accepted(chain, ring, closed) && NoPartLeaves(chain, ring, closed)
  {
    hide Covered, Simple, ChainCrosses, SegmentStays, PartLeaves;
    if !Accepted(chain, ring, closed) { RejectedLeaves(chain, ring, closed); }
    forall i: nat | i < EdgeCount(chain, closed)
      ensures SegmentStays(chain[i], EdgeEnd(chain, i), ring) <==>
                && Covered(ring, chain[i]) && Covered(ring, EdgeEnd(chain, i))
                && (chain[i] != EdgeEnd(chain, i) ==> !PartLeaves(chain[i], EdgeEnd(chain, i), ring))
    {
      SegmentStaysExactly(chain[i], EdgeEnd(chain, i), ring);
    }
  }

  // -- a surface within its hole

  /** Everything of the surface, boundary included, is covered by the hole. */
  ghost predicate Within(surface: seq<Point>, hole: seq<Point>) { forall p: Point :: Covered(surface, p) ==> Covered(hole, p) }

  ghost predicate BoundaryCovered(surface: seq<Point>, hole: seq<Point>) { forall p: Point :: OnBoundary(surface, p) ==> Covered(hole, p) }

  lemma FrontPart(v: seq<Point>, p: Point, q: Point, t: real)
    requires Avoids(v, p, q) && 0.0 <= t <= 1.0
    ensures Avoids(v, p, At(p, q, t))
  {
    hide At;
    forall i | 0 <= i < |v| ensures !Meet(p, At(p, q, t), v[i], Before(v, i)) {
      if Meet(p, At(p, q, t), v[i], Before(v, i)) { PartMeets(p, q, t, v[i], Before(v, i)); }
    }
  }

  lemma PartMeets(p: Point, q: Point, t: real, c: Point, d: Point)
    requires Meet(p, At(p, q, t), c, d) && 0.0 <= t <= 1.0
    ensures Meet(p, q, c, d)
  {
    hide At;
    var s: real, u: real :| 0.0 <= s <= 1.0 && 0.0 <= u <= 1.0 && At(p, At(p, q, t), s) == At(c, d, u);
    Ends(p, q);
    OnLinePoints(p, q, 0.0, t, s);
    var x := 0.0 + (t - 0.0) * s;
    assert At(p, q, x) == At(c, d, u);
    ShareOf(t, s, x);
    MeetAt(p, q, c, d, x, u);
  }

  /** A step outside the hole that touches nothing of it touches nothing of the surface either. */
  lemma OutsideAvoids(surface: seq<Point>, hole: seq<Point>, p: Point, q: Point)
    requires BoundaryCovered(surface, hole) && Avoids(hole, p, q) && !StrictlyInside(hole, p)
    ensures Avoids(surface, p, q)
  {
    hide At, OnBoundary, StrictlyInside;
    forall i | 0 <= i < |surface| ensures !Meet(p, q, surface[i], Before(surface, i)) {
      if Meet(p, q, surface[i], Before(surface, i)) { MeetingCovered(surface, hole, p, q, i); }
    }
  }

  lemma MeetingCovered(surface: seq<Point>, hole: seq<Point>, p: Point, q: Point, i: nat)
    requires i < |surface| && Meet(p, q, surface[i], Before(surface, i)) && Avoids(hole, p, q) && !StrictlyInside(hole, p)
    ensures !BoundaryCovered(surface, hole)
  {
    hide At, OnBoundary, StrictlyInside, Avoids, EdgeEnd, Before;
    var t: real, u: real :| 0.0 <= t <= 1.0 && 0.0 <= u <= 1.0 && At(p, q, t) == At(surface[i], Before(surface, i), u);
    FrontPart(hole, p, q, t);
    AvoidingStepStays(hole, p, At(p, q, t));
    AvoidingLeavesBoundary(hole, p, At(p, q, t));
    var h := LastVertexBefore(surface, i);
    StepBackwards(surface[i], surface[h], u);
    EdgePointOnBoundary(surface, h, 1.0 - u);
    assert OnBoundary(surface, At(p, q, t)) && !Covered(hole, At(p, q, t));
  }

  lemma {:induction false} OutsidePath(surface: seq<Point>, hole: seq<Point>, path: seq<Point>)
    requires BoundaryCovered(surface, hole) && path != [] && PathAvoids(hole, path) && !StrictlyInside(hole, path[0])
    ensures StrictlyInside(surface, path[0]) == StrictlyInside(surface, path[|path| - 1])
  {
    hide BoundaryCovered, StrictlyInside, Avoids;
    if |path| > 1 {
      var front := path[..|path| - 1];
      OutsidePath(surface, hole, front);
      PathStays(hole, front);
      OutsideAvoids(surface, hole, path[|path| - 2], path[|path| - 1]);
      AvoidingStepStays(surface, path[|path| - 2], path[|path| - 1]);
    }
  }

  lemma BesideBoth(surface: seq<Point>, hole: seq<Point>) returns (far: Point)
    ensures Beside(surface, far) && Beside(hole, far)
  {
    far := BelowAll(surface + hole);
    forall i | 0 <= i < |surface| ensures surface[i].y > far.y { assert (surface + hole)[i] == surface[i]; }
    forall i | 0 <= i < |hole| ensures hole[i].y > far.y { assert (surface + hole)[|surface| + i] == hole[i]; }
  }

  /** Where the boundary is covered, so is everything inside: outside the hole there is a way out that the boundary does not bar. */
  lemma InsideCovered(surface: seq<Point>, hole: seq<Point>, z: Point)
    requires Simple(hole) && BoundaryCovered(surface, hole) && StrictlyInside(surface, z)
    ensures Covered(hole, z)
  {
    hide Simple, BoundaryCovered, StrictlyInside, OnBoundary, Beside, PathAvoids;
    if !Covered(hole, z) {
      var far := BesideBoth(surface, hole);
      FarIsOutside(surface, far);
      FarIsOutside(hole, far);
      BesideIsOffBoundary(hole, far);
      SameVerdictLinked(hole, z, far);
      var path: seq<Point> :| Leads(hole, path, z, far);
      OutsidePath(surface, hole, path);
    }
  }

  lemma StayingBoundary(surface: seq<Point>, hole: seq<Point>)
    requires |surface| >= 2
    ensures Stays(surface, hole, true) <==> BoundaryCovered(surface, hole)
  {
    hide Covered, OnBoundary, At, EdgeEnd;
    if Stays(surface, hole, true) {
      forall p: Point | OnBoundary(surface, p) ensures Covered(hole, p) { var i, t := PointOfEdge(surface, p); }
    }
    if BoundaryCovered(surface, hole) {
      forall i: nat, t: real | i < |surface| && 0.0 <= t <= 1.0 ensures Covered(hole, At(surface[i], EdgeEnd(surface, i), t)) {
        EdgePointOnBoundary(surface, i, t);
      }
      forall i | 0 <= i < |surface| ensures Covered(hole, surface[i]) {
        Ends(surface[i], EdgeEnd(surface, i));
        EdgePointOnBoundary(surface, i, 0.0);
      }
    }
  }

  /** A whole surface lies within its hole exactly if the check accepts it and no part of its boundary has its middle outside. */
  lemma SurfaceWithinExactly(surface: seq<Point>, hole: seq<Point>)
    requires Simple(surface) && Simple(hole)
    ensures Within(surface, hole) <==> Accepted(surface, hole, true) && NoPartLeaves(surface, hole, true)
  {
    assert |surface| >= 3;
    hide *;
    StaysExactly(surface, hole, true);
    StayingBoundary(surface, hole);
    WithinByBoundary(surface, hole);
  }

  lemma WithinByBoundary(surface: seq<Point>, hole: seq<Point>)
    requires Simple(hole)
    ensures Within(surface, hole) <==> BoundaryCovered(surface, hole)
  {
    hide Simple, OnBoundary, StrictlyInside;
    if BoundaryCovered(surface, hole) {
      forall p: Point | Covered(surface, p) ensures Covered(hole, p) {
        if StrictlyInside(surface, p) { InsideCovered(surface, hole, p); }
      }
    }
    if Within(surface, hole) {
      forall p: Point | OnBoundary(surface, p) ensures Covered(hole, p) { assert Covered(surface, p); }
    }
  }

  // -- what the check misses

  const notched := [Point(0.0, 0.0), Point(2.0, 1.0), Point(4.0, 0.0), Point(2.0, 4.0)]

  lemma NotchedIsSimple()
    ensures Simple(notched)
  {
    assert TwiceArea(notched, 1) == 0.0;
    assert TwiceArea(notched, 2) == -4.0;
    assert TwiceArea(notched, 3) == 12.0;
    assert TwiceArea(notched, 4) == 12.0;
  }

  /** Across a notch from corner to corner: both ends are on the boundary and nothing is crossed, yet the way between is outside. */
  lemma NotchIsMissed()
    ensures Simple(notched) && Accepted([notched[0], notched[2]], notched, false) && !Stays([notched[0], notched[2]], notched, false)
  {
    var chain := [notched[0], notched[2]];
    NotchedIsSimple();
    EndsAreOn(notched[0], notched[1]);
    EndsAreOn(notched[2], notched[3]);
    assert Covered(notched, chain[0]) && Covered(notched, chain[1]) by { hide PointOnSegment; }
    assert !CrossesAt(chain, notched, 0);
    NotchOutside();
    assert !SegmentStays(chain[0], EdgeEnd(chain, 0), notched);
    hide *;
  }

  lemma NotchOutside()
    ensures At(notched[0], notched[2], 0.5) == Point(2.0, 0.0) && !Covered(notched, Point(2.0, 0.0))
  {
    NotchParity();
    NotchBoundary();
    hide OnBoundary, Parity;
  }

  lemma NotchParity()
    ensures !Parity(notched, Point(2.0, 0.0), 4)
  {
    var p := Point(2.0, 0.0);
    LastRay(notched, p, 1);
    LastRay(notched, p, 2);
    LastRay(notched, p, 3);
    LastRay(notched, p, 4);
    hide Parity;
  }

  lemma NotchBoundary()
    ensures !OnBoundary(notched, Point(2.0, 0.0))
  {
    NotchEdge(0);
    NotchEdge(1);
    NotchEdge(2);
    NotchEdge(3);
    hide PointOnSegment;
  }

  lemma NotchEdge(i: nat)
    requires i < 4
    ensures !PointOnSegment(Point(2.0, 0.0), notched[i], EdgeEnd(notched, i))
  {
    var p := Point(2.0, 0.0);
    assert Cross(notched[0], notched[1], p) == -2.0 && Cross(notched[1], notched[2], p) == -2.0;
    assert Cross(notched[2], notched[3], p) == 8.0 && Cross(notched[3], notched[0], p) == 8.0;
    hide Cross, WithinBox;
  }
}
