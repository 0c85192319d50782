/** Interior overlap of two rings: the edge, vertex and partition tests, and their symmetry. */
module Rings {
  import opened Common
  import opened ClearanceRoots
  import opened Segments
  import opened SegmentMeetings

  /** An implicitly closed ring: at least three vertices, no two neighbours equal. */
  predicate IsRing(v: seq<Point>) {
    |v| >= 3 && v[|v| - 1] != v[0] && forall i :: 0 <= i < |v| - 1 ==> v[i] != v[i + 1]
  }

  /** Edge i runs from vertex i to the next one around. */
  function EdgeEnd(v: seq<Point>, i: nat): Point
    requires i < |v|
  {
    if i + 1 < |v| then v[i + 1] else v[0]
  }

  lemma EdgesHaveLength(v: seq<Point>, i: nat)
    requires IsRing(v) && i < |v|
    ensures v[i] != EdgeEnd(v, i)
  {
  }

  // -- proper crossings

  /** The segments cross, not parallel, at a point interior to both. */
  ghost predicate InteriorCrossing(p1: Point, p2: Point, q1: Point, q2: Point) {
    Determinant(p1, p2, q1, q2) != 0.0
    && exists t: real, u: real :: 0.0 < t < 1.0 && 0.0 < u < 1.0 && At(p1, p2, t) == At(q1, q2, u)
  }

  lemma ProperCrossIsInterior(p1: Point, p2: Point, q1: Point, q2: Point)
    requires ProperCross(p1, p2, q1, q2)
    ensures InteriorCrossing(p1, p2, q1, q2)
  {
    var n := Determinant(p1, p2, q1, q2);
    var f1, f2, g1, g2 := Cross(p1, p2, q1), Cross(p1, p2, q2), Cross(q1, q2, p1), Cross(q1, q2, p2);
    Rates(p1, p2, q1, q2);
    assert n != 0.0;
    var u, t := -f1 / n, g1 / n;
    assert n * u == -f1 && n * t == g1;
    hide Cross, Determinant, At;
    TransversalPoint(p1, p2, q1, q2, t, u);
    StrictlyBetween(f1, f2, n, u);
    assert (-n) * t == -(n * t);
    StrictlyBetween(g1, g2, -n, t);
    assert 0.0 < t < 1.0 && 0.0 < u < 1.0 && At(p1, p2, t) == At(q1, q2, u);
  }

  lemma InteriorIsProperCross(p1: Point, p2: Point, q1: Point, q2: Point)
    requires InteriorCrossing(p1, p2, q1, q2)
    ensures ProperCross(p1, p2, q1, q2)
  {
    var n := Determinant(p1, p2, q1, q2);
    var f1, f2, g1, g2 := Cross(p1, p2, q1), Cross(p1, p2, q2), Cross(q1, q2, p1), Cross(q1, q2, p2);
    Rates(p1, p2, q1, q2);
    var t: real, u: real :| 0.0 < t < 1.0 && 0.0 < u < 1.0 && At(p1, p2, t) == At(q1, q2, u);
    MeetingEquations(p1, p2, q1, q2, t, u);
    assert (-n) * t == -(n * t);
    hide Cross, Determinant, At;
    OppositeSides(f1, f2, n, u);
    OppositeSides(g1, g2, -n, t);
  }

  /** Properly crossing segments are exactly those that cross at a point interior to both. */
  lemma ProperCrossExactly(p1: Point, p2: Point, q1: Point, q2: Point)
    ensures ProperCross(p1, p2, q1, q2) <==> InteriorCrossing(p1, p2, q1, q2)
  {
    if ProperCross(p1, p2, q1, q2) { ProperCrossIsInterior(p1, p2, q1, q2); }
    if InteriorCrossing(p1, p2, q1, q2) { InteriorIsProperCross(p1, p2, q1, q2); }
    hide *;
  }

  lemma StrictlyBetween(f1: real, f2: real, n: real, u: real)
    requires n == f2 - f1 && n != 0.0 && f1 + n * u == 0.0
    requires (f1 > 0.0 && f2 < 0.0) || (f1 < 0.0 && f2 > 0.0)
    ensures 0.0 < u < 1.0
  {
    BetweenZeroAndOne(f1, f2, n, u);
    assert u == 0.0 ==> n * u == 0.0;
    assert u == 1.0 ==> n * u == n;
  }

  lemma OppositeSides(f1: real, f2: real, n: real, u: real)
    requires n == f2 - f1 && n != 0.0 && f1 + n * u == 0.0 && 0.0 < u < 1.0
    ensures (f1 > 0.0 && f2 < 0.0) || (f1 < 0.0 && f2 > 0.0)
  {
    assert f2 == n * (1.0 - u);
    SignOfProduct(n, u);
    SignOfProduct(n, 1.0 - u);
  }

  // -- containment

  predicate OnBoundary(v: seq<Point>, p: Point)
  {
    exists i :: 0 <= i < |v| && PointOnSegment(p, v[i], EdgeEnd(v, i))
  }

  /** Does the ray from p to the right cross the edge from `previous` to `current`? */
  predicate RayCrosses(current: Point, previous: Point, p: Point) {
    (current.y > p.y) != (previous.y > p.y)
    && p.x < current.x + (previous.x - current.x) * (p.y - current.y) / (previous.y - current.y)
  }

  /** Parity of the crossings over the first n edges into each vertex. */
  function Parity(v: seq<Point>, p: Point, n: nat): bool
    requires n <= |v|
  {
    if n == 0 then false
    else Parity(v, p, n - 1) != RayCrosses(v[n - 1], if n == 1 then v[|v| - 1] else v[n - 2], p)
  }

  predicate StrictlyInside(v: seq<Point>, p: Point) { !OnBoundary(v, p) && Parity(v, p, |v|) }

  /** The exact ray-casting test, strict: boundary points are outside. */
  method RingContainsStrictly(v: seq<Point>, p: Point) returns (inside: bool)
    ensures inside == StrictlyInside(v, p)
  {
    for i := 0 to |v|
      invariant forall k :: 0 <= k < i ==> !PointOnSegment(p, v[k], EdgeEnd(v, k))
    {
      if PointOnSegment(p, v[i], EdgeEnd(v, i)) { return false; }
    }
    inside := false;
    var previous := |v| - 1;
    for index := 0 to |v|
      invariant previous == if index == 0 then |v| - 1 else index - 1
      invariant inside == Parity(v, p, index)
    {
      if RayCrosses(v[index], v[previous], p) { inside := !inside; }
      previous := index;
    }
  }

  // -- the overlap tests

  ghost predicate EdgesCross(v: seq<Point>, w: seq<Point>) {
    exists i, j :: 0 <= i < |v| && 0 <= j < |w| && ProperCross(v[i], EdgeEnd(v, i), w[j], EdgeEnd(w, j))
  }

  ghost predicate VertexInside(v: seq<Point>, w: seq<Point>) { exists i :: 0 <= i < |v| && StrictlyInside(w, v[i]) }

  function TwiceArea(v: seq<Point>, n: nat): real
    requires n <= |v|
  {
    if n == 0 then 0.0 else TwiceArea(v, n - 1) + (v[n - 1].x * EdgeEnd(v, n - 1).y - v[n - 1].y * EdgeEnd(v, n - 1).x)
  }

  predicate CounterClockwise(v: seq<Point>) { TwiceArea(v, |v|) > 0.0 }

  /** The inward normal of an edge. */
  function InteriorNormal(a: Point, b: Point, ccw: bool): Point {
    if ccw then Point(-(b.y - a.y), b.x - a.x) else Point(b.y - a.y, -(b.x - a.x))
  }

  function Dot(a: Point, b: Point): real { a.x * b.x + a.y * b.y }

  /** Edge i of v runs along edge j of w, with both interiors on the same side. */
  predicate SameSideAt(v: seq<Point>, w: seq<Point>, i: nat, j: nat)
    requires IsRing(v) && IsRing(w) && i < |v| && j < |w|
  {
    EdgesHaveLength(v, i);
    && OverlapInterval(v[i], EdgeEnd(v, i), w[j], EdgeEnd(w, j)).Some?
    && Dot(InteriorNormal(v[i], EdgeEnd(v, i), CounterClockwise(v)), InteriorNormal(w[j], EdgeEnd(w, j), CounterClockwise(w))) > 0.0
  }

  ghost predicate SameSide(v: seq<Point>, w: seq<Point>)
    requires IsRing(v) && IsRing(w)
  {
    exists i, j :: 0 <= i < |v| && 0 <= j < |w| && SameSideAt(v, w, i, j)
  }

  function Members(s: seq<real>): set<real> { set t | t in s }

  /** Where edge a-b is split by the first n edges of a ring. */
  function Splits(a: Point, b: Point, w: seq<Point>, n: nat): (cuts: set<real>)
    requires a != b && n <= |w|
    ensures 0.0 in cuts && 1.0 in cuts
  {
    if n == 0 then {0.0, 1.0}
    else Splits(a, b, w, n - 1) + Members(IntersectionParams(a, b, w[n - 1], EdgeEnd(w, n - 1)))
  }

  /** The middle of one of the parts a ring splits edge a-b into lies strictly inside the ring. */
  ghost predicate PartInside(a: Point, b: Point, w: seq<Point>)
    requires a != b
  {
    var cuts := Sorted(Splits(a, b, w, |w|));
    exists k :: 0 <= k < |cuts| - 1 && MiddleInside(a, b, w, cuts, k)
  }

  predicate MiddleInside(a: Point, b: Point, w: seq<Point>, cuts: seq<real>, k: nat)
    requires k + 1 < |cuts|
  {
    StrictlyInside(w, At(a, b, (cuts[k] + cuts[k + 1]) / 2.0))
  }

  ghost predicate SomePartInside(v: seq<Point>, w: seq<Point>)
    requires IsRing(v)
  {
    exists i :: 0 <= i < |v| && v[i] != EdgeEnd(v, i) && PartInside(v[i], EdgeEnd(v, i), w)
  }

  function Lowest(v: seq<real>): real
    requires v != []
  {
    if |v| == 1 then v[0] else Min(v[0], Lowest(v[1..]))
  }

  function Highest(v: seq<real>): real
    requires v != []
  {
    if |v| == 1 then v[0] else Max(v[0], Highest(v[1..]))
  }

  function Xs(v: seq<Point>): seq<real> { seq(|v|, i requires 0 <= i < |v| => v[i].x) }

  function Ys(v: seq<Point>): seq<real> { seq(|v|, i requires 0 <= i < |v| => v[i].y) }

  predicate BoundsApart(v: seq<Point>, w: seq<Point>)
    requires v != [] && w != []
  {
    || Highest(Xs(v)) < Lowest(Xs(w)) || Highest(Xs(w)) < Lowest(Xs(v))
    || Highest(Ys(v)) < Lowest(Ys(w)) || Highest(Ys(w)) < Lowest(Ys(v))
  }

  ghost predicate InteriorsOverlap(v: seq<Point>, w: seq<Point>)
    requires IsRing(v) && IsRing(w)
  {
    && !BoundsApart(v, w)
    && (EdgesCross(v, w) || VertexInside(v, w) || VertexInside(w, v) || SameSide(v, w) || SomePartInside(v, w) || SomePartInside(w, v))
  }

  // -- the decision procedure

  method SomeEdgesCross(v: seq<Point>, w: seq<Point>) returns (found: bool)
    ensures found == EdgesCross(v, w)
  {
    for i := 0 to |v|
      invariant forall k, j :: 0 <= k < i && 0 <= j < |w| ==> !ProperCross(v[k], EdgeEnd(v, k), w[j], EdgeEnd(w, j))
    {
      for j := 0 to |w|
        invariant forall k :: 0 <= k < j ==> !ProperCross(v[i], EdgeEnd(v, i), w[k], EdgeEnd(w, k))
      {
        if ProperCross(v[i], EdgeEnd(v, i), w[j], EdgeEnd(w, j)) { return true; }
      }
    }
    found := false;
  }

  method SomeVertexInside(v: seq<Point>, w: seq<Point>) returns (found: bool)
    ensures found == VertexInside(v, w)
  {
    for i := 0 to |v|
      invariant forall k :: 0 <= k < i ==> !StrictlyInside(w, v[k])
    {
      var inside := RingContainsStrictly(w, v[i]);
      if inside { return true; }
    }
    found := false;
  }

  method IsCounterClockwise(v: seq<Point>) returns (ccw: bool)
    ensures ccw == CounterClockwise(v)
  {
    var total := 0.0;
    for i := 0 to |v|
      invariant total == TwiceArea(v, i)
    {
      total := total + (v[i].x * EdgeEnd(v, i).y - v[i].y * EdgeEnd(v, i).x);
    }
    ccw := total > 0.0;
  }

  method SomeEdgesShareSide(v: seq<Point>, w: seq<Point>) returns (found: bool)
    requires IsRing(v) && IsRing(w)
    ensures found == SameSide(v, w)
  {
    var first := IsCounterClockwise(v);
    var second := IsCounterClockwise(w);
    hide OverlapInterval, CounterClockwise;
    for i := 0 to |v|
      invariant forall k, j :: 0 <= k < i && 0 <= j < |w| ==> !SameSideAt(v, w, k, j)
    {
      EdgesHaveLength(v, i);
      for j := 0 to |w|
        invariant forall k :: 0 <= k < j ==> !SameSideAt(v, w, i, k)
      {
        var interval := OverlapInterval(v[i], EdgeEnd(v, i), w[j], EdgeEnd(w, j));
        if interval.Some? {
          var dot := Dot(InteriorNormal(v[i], EdgeEnd(v, i), first), InteriorNormal(w[j], EdgeEnd(w, j), second));
          if dot > 0.0 {
            assert SameSideAt(v, w, i, j);
            return true;
          }
        }
      }
    }
    found := false;
  }

  method PartMidpointInside(v: seq<Point>, w: seq<Point>) returns (found: bool)
    requires IsRing(v)
    ensures found == SomePartInside(v, w)
  {
    hide IntersectionParams, Sorted;
    for i := 0 to |v|
      invariant forall k :: 0 <= k < i ==> !(v[k] != EdgeEnd(v, k) && PartInside(v[k], EdgeEnd(v, k), w))
    {
      EdgesHaveLength(v, i);
      var inside := EdgePartInside(v[i], EdgeEnd(v, i), w);
      if inside { return true; }
    }
    found := false;
  }

  method EdgePartInside(a: Point, b: Point, w: seq<Point>) returns (found: bool)
    requires a != b
    ensures found == PartInside(a, b, w)
  {
    hide IntersectionParams, StrictlyInside;
    var parameters := {0.0, 1.0};
    for j := 0 to |w|
      invariant parameters == Splits(a, b, w, j)
    {
      parameters := parameters + Members(IntersectionParams(a, b, w[j], EdgeEnd(w, j)));
    }
    found := SomeMiddleInside(a, b, w, Sorted(parameters));
  }

  method SomeMiddleInside(a: Point, b: Point, w: seq<Point>, cuts: seq<real>) returns (found: bool)
    ensures found == exists k :: 0 <= k < |cuts| - 1 && MiddleInside(a, b, w, cuts, k)
  {
    hide StrictlyInside, At;
    found := false;
    if cuts == [] { return; }
    for k := 0 to |cuts| - 1
      invariant forall m :: 0 <= m < k ==> !MiddleInside(a, b, w, cuts, m)
    {
      var inside := RingContainsStrictly(w, At(a, b, (cuts[k] + cuts[k + 1]) / 2.0));
      if inside {
        assert MiddleInside(a, b, w, cuts, k);
        return true;
      }
    }
  }

  /** The overlap decision: bounds, proper crossings, vertices, shared sides, split edges, in that order. */
  method RingsInteriorsOverlap(v: seq<Point>, w: seq<Point>) returns (overlap: bool)
    requires IsRing(v) && IsRing(w)
    ensures overlap == InteriorsOverlap(v, w)
  {
    hide EdgesCross, VertexInside, SameSide, SomePartInside, BoundsApart;
    if BoundsApart(v, w) { return false; }
    overlap := SomeEdgesCross(v, w);
    if overlap { return; }
    overlap := SomeVertexInside(v, w);
    if overlap { return; }
    overlap := SomeVertexInside(w, v);
    if overlap { return; }
    overlap := SomeEdgesShareSide(v, w);
    if overlap { return; }
    overlap := PartMidpointInside(v, w);
    if overlap { return; }
    overlap := PartMidpointInside(w, v);
  }

  // -- symmetry

  lemma ProperCrossSwaps(p1: Point, p2: Point, q1: Point, q2: Point)
    ensures ProperCross(p1, p2, q1, q2) == ProperCross(q1, q2, p1, p2)
  {
    hide Orientation;
  }

  lemma EdgesCrossSwaps(v: seq<Point>, w: seq<Point>)
    requires EdgesCross(v, w)
    ensures EdgesCross(w, v)
  {
    var i, j :| 0 <= i < |v| && 0 <= j < |w| && ProperCross(v[i], EdgeEnd(v, i), w[j], EdgeEnd(w, j));
    ProperCrossSwaps(v[i], EdgeEnd(v, i), w[j], EdgeEnd(w, j));
    hide ProperCross;
  }

  lemma SameSideAtSwaps(v: seq<Point>, w: seq<Point>, i: nat, j: nat)
    requires IsRing(v) && IsRing(w) && i < |v| && j < |w| && SameSideAt(v, w, i, j)
    ensures SameSideAt(w, v, j, i)
  {
    EdgesHaveLength(v, i);
    EdgesHaveLength(w, j);
    OverlapIsSymmetric(v[i], EdgeEnd(v, i), w[j], EdgeEnd(w, j));
    DotCommutes(InteriorNormal(v[i], EdgeEnd(v, i), CounterClockwise(v)), InteriorNormal(w[j], EdgeEnd(w, j), CounterClockwise(w)));
    hide OverlapInterval, CounterClockwise, InteriorNormal, Dot, EdgeEnd;
  }

  lemma DotCommutes(a: Point, b: Point)
    ensures Dot(a, b) == Dot(b, a)
  {
  }

  lemma SameSideSwaps(v: seq<Point>, w: seq<Point>)
    requires IsRing(v) && IsRing(w) && SameSide(v, w)
    ensures SameSide(w, v)
  {
    var i, j :| 0 <= i < |v| && 0 <= j < |w| && SameSideAt(v, w, i, j);
    SameSideAtSwaps(v, w, i, j);
    hide SameSideAt;
  }

  /** The overlap decision does not depend on the order of the rings. */
  lemma OverlapDecisionIsSymmetric(v: seq<Point>, w: seq<Point>)
    requires IsRing(v) && IsRing(w)
    ensures InteriorsOverlap(v, w) <==> InteriorsOverlap(w, v)
  {
    assert BoundsApart(v, w) == BoundsApart(w, v);
    if EdgesCross(v, w) { EdgesCrossSwaps(v, w); }
    if EdgesCross(w, v) { EdgesCrossSwaps(w, v); }
    if SameSide(v, w) { SameSideSwaps(v, w); }
    if SameSide(w, v) { SameSideSwaps(w, v); }
    hide EdgesCross, VertexInside, SameSide, SomePartInside, BoundsApart;
  }
}
