/** Overlap that was found is real: next to a crossing, a contained vertex or a contained part, a point lies inside both rings. */
module RingOverlap {
  import opened Common
  import opened ClearanceRoots
  import opened Segments
  import opened SegmentMeetings
  import opened Rings
  import opened RingParity

  // -- small boxes around a point

  function Abs(x: real): real { if x >= 0.0 then x else -x }

  /** z lies in the box of half-width eps around m. */
  predicate Near(m: Point, z: Point, eps: real) { Abs(z.x - m.x) <= eps && Abs(z.y - m.y) <= eps }

  /** No point of the segment lies in the box. */
  ghost predicate MissesBox(m: Point, eps: real, a: Point, b: Point) { forall z: Point :: Near(m, z, eps) ==> !PointOnSegment(z, a, b) }

  lemma SmallerBox(m: Point, eps: real, less: real, a: Point, b: Point)
    requires MissesBox(m, eps, a, b) && less <= eps
    ensures MissesBox(m, less, a, b)
  {
    hide PointOnSegment;
  }

  lemma BoundedProduct(x: real, y: real, eps: real)
    requires Abs(y) <= eps
    ensures Abs(Times(x, y)) <= Times(Abs(x), eps)
  {
    NotNegative(Abs(x), eps - Abs(y));
    assert Abs(x) * (eps - Abs(y)) == Abs(x) * eps - Abs(x) * Abs(y);
    SignOfProduct(x, y);
    if x >= 0.0 && y < 0.0 { assert x * (-y) == -(x * y); }
    if x < 0.0 && y >= 0.0 { assert (-x) * y == -(x * y); }
    if x < 0.0 && y < 0.0 { assert (-x) * (-y) == x * y; }
  }

  lemma TimesAdds(x: real, y: real, s: real)
    ensures Times(x, s) + Times(y, s) == Times(x + y, s) && Times(x, -s) == -Times(x, s)
  {
  }

  lemma DifferenceBound(x: real, y: real, bx: real, bound: real)
    requires Abs(x) <= bx && Abs(y) <= bound
    ensures Abs(x - y) <= bx + bound
  {
  }

  /** How much the area over a-b can change inside a box. */
  lemma CrossMoves(a: Point, b: Point, m: Point, z: Point, eps: real)
    requires Near(m, z, eps)
    ensures Abs(Cross(a, b, z) - Cross(a, b, m)) <= Times(Abs(b.x - a.x) + Abs(b.y - a.y), eps)
  {
    var dx, dy, ex, ey := b.x - a.x, b.y - a.y, z.x - m.x, z.y - m.y;
    CrossDifference(a, b, m, z);
    hide Cross, Times, Abs;
    BoundedProduct(dx, ey, eps);
    BoundedProduct(dy, ex, eps);
    DifferenceBound(Times(dx, ey), Times(dy, ex), Times(Abs(dx), eps), Times(Abs(dy), eps));
    TimesAdds(Abs(dx), Abs(dy), eps);
  }

  lemma CrossDifference(a: Point, b: Point, m: Point, z: Point)
    ensures Cross(a, b, z) - Cross(a, b, m) == Times(b.x - a.x, z.y - m.y) - Times(b.y - a.y, z.x - m.x)
  {
    var dx, dy := b.x - a.x, b.y - a.y;
    assert dx * (z.y - a.y) - dx * (m.y - a.y) == dx * (z.y - m.y);
    assert dy * (z.x - a.x) - dy * (m.x - a.x) == dy * (z.x - m.x);
  }

  /** A width that divides a positive amount among k parts and one more. */
  lemma SmallShare(c: real, k: real) returns (eps: real)
    requires c > 0.0 && k >= 0.0
    ensures 0.0 < eps <= c && Times(k, eps) < c
  {
    eps := c / (k + 1.0);
    QuotientTimes(k + 1.0, c);
    SignOfProduct(k + 1.0, eps);
    assert (k + 1.0) * eps == k * eps + eps;
    if eps > 0.0 { NotNegative(k, eps); }
  }

  lemma AbsIsPositive(x: real)
    ensures Abs(x) >= 0.0 && (x != 0.0 ==> Abs(x) > 0.0)
  {
  }

  /** A point off the line of a segment has a box around it that the segment misses. */
  lemma BoxOffLine(m: Point, a: Point, b: Point) returns (eps: real)
    requires Cross(a, b, m) != 0.0
    ensures eps > 0.0 && MissesBox(m, eps, a, b)
  {
    hide Cross, Times;
    var k := Abs(b.x - a.x) + Abs(b.y - a.y);
    eps := SmallShare(Abs(Cross(a, b, m)), k);
    forall z: Point | Near(m, z, eps) ensures !PointOnSegment(z, a, b) {
      CrossMoves(a, b, m, z, eps);
      hide Near;
    }
  }

  /** A point outside the segment's own box has one around it that the segment misses. */
  lemma BoxOffBox(m: Point, a: Point, b: Point) returns (eps: real)
    requires !WithinBox(m, a, b)
    ensures eps > 0.0 && MissesBox(m, eps, a, b)
  {
    hide Orientation;
    var left, right := Min(a.x, b.x) - m.x, m.x - Max(a.x, b.x);
    var below, above := Min(a.y, b.y) - m.y, m.y - Max(a.y, b.y);
    var gap := Max(Max(left, right), Max(below, above));
    eps := gap / 2.0;
  }

  /** A point off a segment has a box around it that the segment misses. */
  lemma BoxOffSegment(m: Point, a: Point, b: Point) returns (eps: real)
    requires !PointOnSegment(m, a, b)
    ensures eps > 0.0 && MissesBox(m, eps, a, b)
  {
    hide Cross, WithinBox, MissesBox;
    if Cross(a, b, m) != 0.0 { eps := BoxOffLine(m, a, b); } else { eps := BoxOffBox(m, a, b); }
  }

  // -- edges of a ring: edge i runs from vertex i to the next

  function Next(n: nat, i: nat): (k: nat)
    requires i < n
    ensures k < n
  {
    if i + 1 < n then i + 1 else 0
  }

  /** Every edge, except possibly some, misses the box. */
  ghost predicate ClearOf(v: seq<Point>, m: Point, eps: real, n: nat, except: set<int>)
    requires n <= |v|
  {
    forall i :: 0 <= i < n && i !in except ==> MissesBox(m, eps, v[i], EdgeEnd(v, i))
  }

  lemma {:induction false} BoxOffRing(v: seq<Point>, m: Point, n: nat, except: set<int>) returns (eps: real)
    requires n <= |v| && forall i :: 0 <= i < n && i !in except ==> !PointOnSegment(m, v[i], EdgeEnd(v, i))
    ensures eps > 0.0 && ClearOf(v, m, eps, n, except)
  {
    hide PointOnSegment, MissesBox;
    if n == 0 {
      eps := 1.0;
    } else {
      var before := BoxOffRing(v, m, n - 1, except);
      eps := before;
      if n - 1 !in except {
        var last := BoxOffSegment(m, v[n - 1], EdgeEnd(v, n - 1));
        eps := Min(before, last);
        SmallerBox(m, last, eps, v[n - 1], EdgeEnd(v, n - 1));
        forall i | 0 <= i < n - 1 && i !in except ensures MissesBox(m, eps, v[i], EdgeEnd(v, i)) {
          SmallerBox(m, before, eps, v[i], EdgeEnd(v, i));
        }
      }
    }
  }

  lemma BetweenIsNear(m: real, p: real, q: real, t: real, eps: real)
    requires 0.0 <= t <= 1.0 && Abs(p - m) <= eps && Abs(q - m) <= eps
    ensures Abs(Along(p, q, t) - m) <= eps
  {
    BetweenCoordinates(p, q, t);
    assert Min(p, q) <= Along(p, q, t) <= Max(p, q);
    hide Along;
  }

  /** Boxes are convex. */
  lemma StepStaysInBox(m: Point, eps: real, p: Point, q: Point, t: real)
    requires Near(m, p, eps) && Near(m, q, eps) && 0.0 <= t <= 1.0
    ensures Near(m, At(p, q, t), eps)
  {
    AtAlong(p, q, t);
    hide At, Along, Abs;
    BetweenIsNear(m.x, p.x, q.x, t, eps);
    BetweenIsNear(m.y, p.y, q.y, t, eps);
  }

  /** A step inside the box does not meet an edge that misses it. */
  lemma StepInBox(m: Point, eps: real, p: Point, q: Point, a: Point, b: Point)
    requires MissesBox(m, eps, a, b) && Near(m, p, eps) && Near(m, q, eps)
    ensures !Meet(p, q, a, b)
  {
    hide At, Near, PointOnSegment;
    if Meet(p, q, a, b) {
      var t: real, u: real :| 0.0 <= t <= 1.0 && 0.0 <= u <= 1.0 && At(p, q, t) == At(a, b, u);
      StepStaysInBox(m, eps, p, q, t);
      OnSegmentExactly(At(p, q, t), a, b);
    }
  }

  lemma MeetReversed(p: Point, q: Point, a: Point, b: Point)
    requires Meet(p, q, b, a)
    ensures Meet(p, q, a, b)
  {
    var t: real, u: real :| 0.0 <= t <= 1.0 && 0.0 <= u <= 1.0 && At(p, q, t) == At(b, a, u);
    StepBackwards(a, b, 1.0 - u);
    hide At;
    MeetAt(p, q, a, b, t, 1.0 - u);
  }

  lemma LastVertexBefore(v: seq<Point>, k: nat) returns (i: nat)
    requires k < |v|
    ensures i < |v| && Next(|v|, i) == k && v[i] == Before(v, k) && EdgeEnd(v, i) == v[k]
  {
    i := if k == 0 then |v| - 1 else k - 1;
  }

  /** Near a strictly contained point everything is strictly contained. */
  lemma InsideNearby(w: seq<Point>, m: Point, eps: real, z: Point)
    requires ClearOf(w, m, eps, |w|, {}) && eps > 0.0 && Near(m, z, eps)
    ensures StrictlyInside(w, z) == StrictlyInside(w, m)
  {
    forall k | 0 <= k < |w| ensures !Meet(m, z, w[k], Before(w, k)) {
      var i := LastVertexBefore(w, k);
      assert MissesBox(m, eps, w[i], EdgeEnd(w, i));
      hide MissesBox, Meet;
      StepInBox(m, eps, m, z, w[i], w[k]);
      if Meet(m, z, w[k], w[i]) { MeetReversed(m, z, w[i], w[k]); }
    }
    hide MissesBox, Meet, StrictlyInside;
    AvoidingStepStays(w, m, z);
  }

  // -- both sides of an edge

  function Shifted(m: Point, d: Point, s: real): Point { Point(m.x + Times(d.x, s), m.y + Times(d.y, s)) }

  /** The wedge of the edge's direction and d. */
  function Wedge(a: Point, b: Point, d: Point): real { (b.x - a.x) * d.y - (b.y - a.y) * d.x }

  lemma ShiftedIsNear(m: Point, d: Point, s: real, eps: real)
    requires s >= 0.0 && Times(Abs(d.x) + Abs(d.y), s) <= eps
    ensures Near(m, Shifted(m, d, s), eps) && Near(m, Shifted(m, d, -s), eps)
  {
    TimesAdds(Abs(d.x), Abs(d.y), s);
    TimesAdds(d.x, d.y, s);
    TimesAdds(d.y, d.x, s);
    NotNegative(Abs(d.x), s);
    NotNegative(Abs(d.y), s);
    assert Times(Abs(d.x), s) >= 0.0 && Times(Abs(d.y), s) >= 0.0;
    BoundedProduct(d.x, s, s);
    BoundedProduct(d.y, s, s);
    hide Times;
  }

  lemma MiddleOfShifts(m: Point, d: Point, s: real)
    ensures At(Shifted(m, d, s), Shifted(m, d, -s), 0.5) == m
  {
    TimesAdds(d.x, d.y, s);
    TimesAdds(d.y, d.x, s);
    hide Times;
  }

  lemma ShiftDeterminant(a: Point, b: Point, m: Point, d: Point, s: real)
    ensures Determinant(Shifted(m, d, s), Shifted(m, d, -s), a, b) == (2.0 * s) * Wedge(a, b, d)
  {
    var dx, dy, rx, ry := d.x * s, d.y * s, b.x - a.x, b.y - a.y;
    assert d.x * (-s) == -dx && d.y * (-s) == -dy;
    assert (-2.0 * dx) * ry - (-2.0 * dy) * rx == 2.0 * (rx * dy) - 2.0 * (ry * dx);
    assert rx * dy == (rx * d.y) * s && ry * dx == (ry * d.x) * s;
  }

  /** Stepping through an inner point of an edge, not along it, crosses the edge properly. */
  lemma StepThroughEdge(a: Point, b: Point, t: real, d: Point, s: real)
    requires 0.0 < t < 1.0 && s > 0.0 && Wedge(a, b, d) != 0.0
    ensures ProperCross(Shifted(At(a, b, t), d, s), Shifted(At(a, b, t), d, -s), a, b)
  {
    var m := At(a, b, t);
    ShiftDeterminant(a, b, m, d, s);
    NonZero(2.0 * s, Wedge(a, b, d));
    MiddleOfShifts(m, d, s);
    hide At, Shifted, Determinant, Wedge, ProperCross, Times;
    assert 0.0 < 0.5 < 1.0 && At(Shifted(m, d, s), Shifted(m, d, -s), 0.5) == At(a, b, t);
    ProperCrossExactly(Shifted(m, d, s), Shifted(m, d, -s), a, b);
  }

  lemma CrossesReversed(p: Point, q: Point, a: Point, b: Point)
    ensures ProperCross(p, q, b, a) == ProperCross(p, q, a, b)
  {
    OrientationSwaps(a, b, p);
    OrientationSwaps(a, b, q);
    hide Orientation;
  }

  lemma {:induction false} OneCrossing(v: seq<Point>, p: Point, q: Point, k: nat, n: nat)
    requires n <= |v| && k < |v| && ProperCross(p, q, v[k], Before(v, k))
    requires forall j :: 0 <= j < |v| && j != k ==> !Meet(p, q, v[j], Before(v, j))
    ensures Crossings(v, p, q, n) == if k < n then 1 else 0
  {
    hide ProperCross, Meet;
    if n > 0 {
      ProperCrossMeets(p, q, v[n - 1], Before(v, n - 1));
      OneCrossing(v, p, q, k, n - 1);
    }
  }

  /** Across an edge, and no other, the parity changes. */
  lemma CrossedOnce(v: seq<Point>, i: nat, p: Point, q: Point)
    requires i < |v| && ProperCross(p, q, v[i], EdgeEnd(v, i))
    requires forall j :: 0 <= j < |v| && j != i ==> !Meet(p, q, EdgeEnd(v, j), v[j])
    ensures Parity(v, p, |v|) != Parity(v, q, |v|)
  {
    var k := Next(|v|, i);
    CrossesReversed(p, q, v[i], v[k]);
    hide ProperCross, Meet, Parity;
    assert Before(v, k) == v[i] && EdgeEnd(v, i) == v[k];
    forall j | 0 <= j < |v| && j != k ensures !Meet(p, q, v[j], Before(v, j)) {
      var h := LastVertexBefore(v, j);
      assert h != i;
    }
    OneCrossing(v, p, q, k, |v|);
    assert Generic(v, p, q) by { hide Crossings; }
    hide Generic, Crossings;
    CrossingsFlipParity(v, p, q);
  }

  lemma CrossingEndsOffEdge(p: Point, q: Point, a: Point, b: Point)
    requires ProperCross(p, q, a, b)
    ensures !PointOnSegment(p, a, b) && !PointOnSegment(q, a, b)
  {
    hide Orientation;
  }

  /** The point lies inside edge i and on no other edge. */
  ghost predicate InsideEdge(v: seq<Point>, i: nat, t: real) {
    && i < |v| && 0.0 < t < 1.0
    && forall j :: 0 <= j < |v| && j != i ==> !PointOnSegment(At(v[i], EdgeEnd(v, i), t), v[j], EdgeEnd(v, j))
  }

  /** Across edge i, inside a box that every other edge misses, the verdict changes. */
  lemma SidesDiffer(v: seq<Point>, i: nat, m: Point, clear: real, p: Point, q: Point)
    requires i < |v| && ProperCross(p, q, v[i], EdgeEnd(v, i))
    requires ClearOf(v, m, clear, |v|, {i}) && Near(m, p, clear) && Near(m, q, clear)
    ensures StrictlyInside(v, p) != StrictlyInside(v, q)
  {
    hide PointOnSegment, MissesBox, Near, ProperCross, Meet, Parity, OnBoundary;
    forall j | 0 <= j < |v| && j != i ensures !Meet(p, q, EdgeEnd(v, j), v[j]) {
      assert MissesBox(m, clear, v[j], EdgeEnd(v, j));
      StepInBox(m, clear, p, q, v[j], EdgeEnd(v, j));
      if Meet(p, q, EdgeEnd(v, j), v[j]) { MeetReversed(p, q, v[j], EdgeEnd(v, j)); }
    }
    CrossedOnce(v, i, p, q);
    CrossingEndsOffEdge(p, q, v[i], EdgeEnd(v, i));
    OffBoundaryInBox(v, i, m, clear, p);
    OffBoundaryInBox(v, i, m, clear, q);
  }

  /** Just beside an inner point of an edge, one side is strictly inside the ring and the other is not. */
  lemma BesideEdge(v: seq<Point>, i: nat, t: real, d: Point, eps: real) returns (s: real)
    requires InsideEdge(v, i, t) && Wedge(v[i], EdgeEnd(v, i), d) != 0.0 && eps > 0.0
    ensures var m := At(v[i], EdgeEnd(v, i), t);
            && 0.0 < s <= eps && Near(m, Shifted(m, d, s), eps) && Near(m, Shifted(m, d, -s), eps)
            && StrictlyInside(v, Shifted(m, d, s)) != StrictlyInside(v, Shifted(m, d, -s))
  {
    var m := At(v[i], EdgeEnd(v, i), t);
    var clear := BoxOffRing(v, m, |v|, {i});
    hide PointOnSegment, At, Wedge, Near, ProperCross, Shifted, StrictlyInside, ClearOf, Times;
    var width := Min(eps, clear);
    AbsIsPositive(d.x);
    AbsIsPositive(d.y);
    hide Abs;
    s := SmallShare(width, Abs(d.x) + Abs(d.y));
    var p, q := Shifted(m, d, s), Shifted(m, d, -s);
    ShiftedIsNear(m, d, s, width);
    NearerIsNear(m, p, width, eps);
    NearerIsNear(m, q, width, eps);
    NearerIsNear(m, p, width, clear);
    NearerIsNear(m, q, width, clear);
    StepThroughEdge(v[i], EdgeEnd(v, i), t, d, s);
    SidesDiffer(v, i, m, clear, p, q);
  }

  lemma NearerIsNear(m: Point, z: Point, less: real, eps: real)
    requires Near(m, z, less) && less <= eps
    ensures Near(m, z, eps)
  {
  }

  lemma OffBoundaryInBox(v: seq<Point>, i: nat, m: Point, eps: real, z: Point)
    requires i < |v| && ClearOf(v, m, eps, |v|, {i}) && Near(m, z, eps) && !PointOnSegment(z, v[i], EdgeEnd(v, i))
    ensures !OnBoundary(v, z)
  {
    hide PointOnSegment, Near;
    forall j | 0 <= j < |v| ensures !PointOnSegment(z, v[j], EdgeEnd(v, j)) {
      if j != i { assert MissesBox(m, eps, v[j], EdgeEnd(v, j)); }
    }
  }

  // -- simple rings

  /** Edges i and k follow each other. */
  predicate Neighbours(n: nat, i: nat, k: nat)
    requires i < n && k < n
  {
    Next(n, i) == k || Next(n, k) == i
  }

  /** A valid ring encloses an area, and edges that are no neighbours do not intersect. */
  ghost predicate Simple(v: seq<Point>) {
    && IsRing(v) && TwiceArea(v, |v|) != 0.0
    && forall i, k :: 0 <= i < k < |v| && !Neighbours(|v|, i, k) ==> !SegmentsIntersect(v[i], EdgeEnd(v, i), v[k], EdgeEnd(v, k))
  }

  lemma SharedMeansIntersect(p: Point, a: Point, b: Point, c: Point, d: Point)
    requires PointOnSegment(p, a, b) && PointOnSegment(p, c, d)
    ensures SegmentsIntersect(a, b, c, d)
  {
    OnSegmentExactly(p, a, b);
    OnSegmentExactly(p, c, d);
    IntersectExactly(a, b, c, d);
    hide PointOnSegment, At, SegmentsIntersect;
    var t: real :| 0.0 <= t <= 1.0 && At(a, b, t) == p;
    var u: real :| 0.0 <= u <= 1.0 && At(c, d, u) == p;
    MeetAt(a, b, c, d, t, u);
  }

  /** Edges that are no neighbours have no point in common. */
  lemma ApartEdges(v: seq<Point>, i: nat, k: nat, p: Point)
    requires Simple(v) && i < |v| && k < |v| && i != k && !Neighbours(|v|, i, k)
    ensures !(PointOnSegment(p, v[i], EdgeEnd(v, i)) && PointOnSegment(p, v[k], EdgeEnd(v, k)))
  {
    hide PointOnSegment, SegmentsIntersect;
    if PointOnSegment(p, v[i], EdgeEnd(v, i)) && PointOnSegment(p, v[k], EdgeEnd(v, k)) {
      SharedMeansIntersect(p, v[i], EdgeEnd(v, i), v[k], EdgeEnd(v, k));
      SharedMeansIntersect(p, v[k], EdgeEnd(v, k), v[i], EdgeEnd(v, i));
    }
  }

  lemma OnReversed(p: Point, a: Point, b: Point)
    ensures PointOnSegment(p, a, b) == PointOnSegment(p, b, a)
  {
    OrientationSwaps(a, b, p);
    hide Orientation;
  }

  lemma EndsAreOn(a: Point, b: Point)
    ensures PointOnSegment(a, a, b) && PointOnSegment(b, a, b)
  {
    CrossAtEnds(a, b);
    hide Cross;
  }

  lemma ScaleBack(x: real, y: real, s: real, u: real)
    requires x * s == y * u && s != 0.0
    ensures x == y * (u / s)
  {
    QuotientTimes(s, u);
    assert s * (y * (u / s)) == y * (s * (u / s));
    CancelFactor(s, x, y * (u / s));
  }

  lemma OnRay(c: Point, x: Point, y: Point, s: real, u: real)
    requires At(c, x, s) == At(c, y, u) && s != 0.0
    ensures At(c, y, u / s) == x
  {
    ScaleBack(x.x - c.x, y.x - c.x, s, u);
    ScaleBack(x.y - c.y, y.y - c.y, s, u);
  }

  lemma AtStart(c: Point, x: Point)
    ensures At(c, x, 0.0) == c
  {
  }

  lemma SmallerQuotient(u: real, s: real)
    requires 0.0 < u <= s
    ensures 0.0 <= u / s <= 1.0
  {
    QuotientTimes(s, u);
    SignOfProduct(s, u / s);
    SignOfProduct(s, u / s - 1.0);
    assert s * (u / s - 1.0) == s * (u / s) - s;
  }

  /** Two segments from c that share another point run together: the end of one lies on the other. */
  lemma FromOneVertex(c: Point, x: Point, y: Point, m: Point)
    requires m != c && PointOnSegment(m, c, x) && PointOnSegment(m, c, y)
    ensures PointOnSegment(x, c, y) || PointOnSegment(y, c, x)
  {
    OnSegmentExactly(m, c, x);
    OnSegmentExactly(m, c, y);
    OnSegmentExactly(x, c, y);
    OnSegmentExactly(y, c, x);
    AtStart(c, x);
    AtStart(c, y);
    hide PointOnSegment, At;
    var s: real :| 0.0 <= s <= 1.0 && At(c, x, s) == m;
    var u: real :| 0.0 <= u <= 1.0 && At(c, y, u) == m;
    if u <= s {
      OnRay(c, x, y, s, u);
      SmallerQuotient(u, s);
    } else {
      OnRay(c, y, x, u, s);
      SmallerQuotient(s, u);
    }
  }

  lemma TriangleArea(v: seq<Point>)
    requires |v| == 3
    ensures TwiceArea(v, 3) == Cross(v[0], v[1], v[2])
  {
    var a, b, c := v[0], v[1], v[2];
    assert TwiceArea(v, 1) == TwiceArea(v, 0) + (a.x * b.y - a.y * b.x);
    assert TwiceArea(v, 2) == TwiceArea(v, 1) + (b.x * c.y - b.y * c.x);
    assert TwiceArea(v, 3) == TwiceArea(v, 2) + (c.x * a.y - c.y * a.x);
    hide TwiceArea;
    AreaIdentity(a.x, a.y, b.x, b.y, c.x, c.y);
  }

  lemma AreaIdentity(ax: real, ay: real, bx: real, y: real, cx: real, cy: real)
    ensures (ax * y - ay * bx) + (bx * cy - y * cx) + (cx * ay - cy * ax) == (bx - ax) * (cy - ay) - (y - ay) * (cx - ax)
  {
  }

  lemma CrossCycles(a: Point, b: Point, c: Point)
    ensures Cross(b, c, a) == Cross(a, b, c)
  {
    AreaIdentity(a.x, a.y, b.x, b.y, c.x, c.y);
    AreaIdentity(b.x, b.y, c.x, c.y, a.x, a.y);
  }

  /** The vertices of a valid triangle do not lie on one line. */
  lemma TriangleVertices(v: seq<Point>, i: nat)
    requires Simple(v) && |v| == 3 && i < 3
    ensures Cross(v[i], v[Next(3, i)], v[Next(3, Next(3, i))]) != 0.0
  {
    TriangleArea(v);
    CrossCycles(v[0], v[1], v[2]);
    CrossCycles(v[1], v[2], v[0]);
    hide Cross, TwiceArea;
  }

  /** In a valid triangle no vertex lies on the opposite edge. */
  lemma OppositeVertex(v: seq<Point>, i: nat)
    requires Simple(v) && |v| == 3 && i < 3
    ensures !PointOnSegment(v[Next(3, Next(3, i))], v[i], EdgeEnd(v, i))
  {
    TriangleVertices(v, i);
    hide Cross, TwiceArea;
  }

  /** A vertex is not on an edge that neither starts nor ends there. */
  lemma VertexOffEdges(v: seq<Point>, j: nat, k: nat)
    requires Simple(v) && j < |v| && k < |v| && k != j && Next(|v|, k) != j
    ensures !PointOnSegment(v[j], v[k], EdgeEnd(v, k))
  {
    var n := |v|;
    if n == 3 {
      assert j == Next(3, Next(3, k));
      OppositeVertex(v, k);
    } else if Next(n, j) != k {
      EndsAreOn(v[j], EdgeEnd(v, j));
      hide PointOnSegment;
      ApartEdges(v, j, k, v[j]);
    } else {
      var h := if j == 0 then n - 1 else j - 1;
      assert EdgeEnd(v, h) == v[j];
      EndsAreOn(v[h], EdgeEnd(v, h));
      hide PointOnSegment;
      ApartEdges(v, h, k, v[j]);
    }
  }

  /** Neighbouring edges share their vertex only. */
  lemma NeighboursShareVertex(v: seq<Point>, i: nat, m: Point)
    requires Simple(v) && i < |v|
    requires var k := Next(|v|, i); PointOnSegment(m, v[i], EdgeEnd(v, i)) && PointOnSegment(m, v[k], EdgeEnd(v, k))
    ensures m == EdgeEnd(v, i)
  {
    var k := Next(|v|, i);
    var a, c, b := v[i], v[k], EdgeEnd(v, k);
    OnReversed(m, a, c);
    OnReversed(b, a, c);
    hide PointOnSegment;
    if m != c {
      FromOneVertex(c, a, b, m);
      VertexOffEdges(v, i, k);
      VertexOffEdges(v, Next(|v|, k), i);
    }
  }

  lemma InnerIsNoEnd(a: Point, b: Point, t: real)
    requires a != b && 0.0 < t < 1.0
    ensures At(a, b, t) != a && At(a, b, t) != b && PointOnSegment(At(a, b, t), a, b)
  {
    OnSegmentExactly(At(a, b, t), a, b);
    ParamOfAt(a, b, t);
    ParamOfAt(a, b, 0.0);
    ParamOfAt(a, b, 1.0);
    Ends(a, b);
    hide At, PointOnSegment, Param;
  }

  /** An inner point of an edge of a valid ring lies on no other edge. */
  lemma InnerPointsOnOneEdge(v: seq<Point>, i: nat, t: real)
    requires Simple(v) && i < |v| && 0.0 < t < 1.0
    ensures InsideEdge(v, i, t)
  {
    var m := At(v[i], EdgeEnd(v, i), t);
    EdgesHaveLength(v, i);
    InnerIsNoEnd(v[i], EdgeEnd(v, i), t);
    hide At, PointOnSegment;
    forall j | 0 <= j < |v| && j != i ensures !PointOnSegment(m, v[j], EdgeEnd(v, j)) {
      if PointOnSegment(m, v[j], EdgeEnd(v, j)) {
        if Next(|v|, i) == j { NeighboursShareVertex(v, i, m); }
        else if Next(|v|, j) == i { NeighboursShareVertex(v, j, m); }
        else { ApartEdges(v, i, j, m); }
      }
    }
  }

  // -- points inside both rings

  /** The point is strictly inside both rings. */
  ghost predicate InBoth(v: seq<Point>, w: seq<Point>, z: Point) { StrictlyInside(v, z) && StrictlyInside(w, z) }

  /** The direction across an edge. */
  function Across(a: Point, b: Point): Point { Point(-(b.y - a.y), b.x - a.x) }

  lemma AcrossIsNotAlong(a: Point, b: Point)
    requires a != b
    ensures Wedge(a, b, Across(a, b)) != 0.0
  {
    LengthPositive(a, b);
  }

  lemma OffBoundary(w: seq<Point>, m: Point)
    requires StrictlyInside(w, m)
    ensures forall i :: 0 <= i < |w| ==> !PointOnSegment(m, w[i], EdgeEnd(w, i))
  {
    hide PointOnSegment;
  }

  /** Next to an inner point of an edge of v that is strictly inside w there is a point strictly inside both. */
  lemma SharedBesideEdge(v: seq<Point>, w: seq<Point>, i: nat, t: real) returns (z: Point)
    requires Simple(v) && i < |v| && 0.0 < t < 1.0 && StrictlyInside(w, At(v[i], EdgeEnd(v, i), t))
    ensures InBoth(v, w, z)
  {
    var a, b := v[i], EdgeEnd(v, i);
    var m, d := At(a, b, t), Across(a, b);
    EdgesHaveLength(v, i);
    AcrossIsNotAlong(a, b);
    InnerPointsOnOneEdge(v, i, t);
    OffBoundary(w, m);
    var eps := BoxOffRing(w, m, |w|, {});
    hide PointOnSegment, At, Wedge, Near, Shifted, StrictlyInside, ClearOf, InsideEdge, Simple;
    var s := BesideEdge(v, i, t, d, eps);
    InsideNearby(w, m, eps, Shifted(m, d, s));
    InsideNearby(w, m, eps, Shifted(m, d, -s));
    z := if StrictlyInside(v, Shifted(m, d, s)) then Shifted(m, d, s) else Shifted(m, d, -s);
  }

  function Direction(a: Point, b: Point): Point { Point(b.x - a.x, b.y - a.y) }

  lemma AtIsShift(a: Point, b: Point, t: real, s: real)
    ensures Shifted(At(a, b, t), Direction(a, b), s) == At(a, b, t + s)
  {
    assert (b.x - a.x) * t + (b.x - a.x) * s == (b.x - a.x) * (t + s);
    assert (b.y - a.y) * t + (b.y - a.y) * s == (b.y - a.y) * (t + s);
  }

  lemma VertexGivesShared(v: seq<Point>, w: seq<Point>, i: nat) returns (z: Point)
    requires Simple(v) && i < |v| && StrictlyInside(w, v[i])
    ensures InBoth(v, w, z)
  {
    var a, b := v[i], EdgeEnd(v, i);
    var d := Direction(a, b);
    OffBoundary(w, a);
    var eps := BoxOffRing(w, a, |w|, {});
    var width := Min(eps, 0.5);
    AbsIsPositive(d.x);
    AbsIsPositive(d.y);
    Ends(a, b);
    AtIsShift(a, b, 0.0, 0.0);
    hide PointOnSegment, Near, Shifted, StrictlyInside, ClearOf, Simple, Abs, At, Times;
    var t := SmallShare(width, Abs(d.x) + Abs(d.y));
    ShiftedIsNear(a, d, t, width);
    AtIsShift(a, b, 0.0, t);
    NearerIsNear(a, Shifted(a, d, t), width, eps);
    InsideNearby(w, a, eps, Shifted(a, d, t));
    z := SharedBesideEdge(v, w, i, t);
  }

  lemma WedgeIsDeterminant(a: Point, b: Point, c: Point, d: Point)
    ensures Wedge(a, b, Direction(c, d)) == Determinant(a, b, c, d)
  {
  }

  lemma StillInner(u: real, s: real)
    requires 0.0 < u < 1.0 && 0.0 < s <= Min(u, 1.0 - u) / 2.0
    ensures 0.0 < u + s < 1.0 && 0.0 < u - s < 1.0
  {
  }

  /** A segment through an inner point of an edge of v, not along it, has inner points strictly inside v. */
  lemma InsideAlongCrossing(v: seq<Point>, i: nat, t: real, c: Point, e: Point, u: real) returns (x: real)
    requires InsideEdge(v, i, t) && Wedge(v[i], EdgeEnd(v, i), Direction(c, e)) != 0.0
    requires 0.0 < u < 1.0 && At(v[i], EdgeEnd(v, i), t) == At(c, e, u)
    ensures 0.0 < x < 1.0 && StrictlyInside(v, At(c, e, x))
  {
    hide At, Wedge, Shifted, StrictlyInside, Near, InsideEdge, Direction;
    var s := BesideEdge(v, i, t, Direction(c, e), Min(u, 1.0 - u) / 2.0);
    AtIsShift(c, e, u, s);
    AtIsShift(c, e, u, -s);
    StillInner(u, s);
    hide Min;
    x := if StrictlyInside(v, At(c, e, u + s)) then u + s else u - s;
    assert u + -s == u - s;
  }

  /** Where two edges cross properly a piece of one lies inside the other ring. */
  lemma CrossingGivesShared(v: seq<Point>, w: seq<Point>, i: nat, j: nat) returns (z: Point)
    requires Simple(v) && Simple(w) && i < |v| && j < |w| && ProperCross(v[i], EdgeEnd(v, i), w[j], EdgeEnd(w, j))
    ensures InBoth(v, w, z)
  {
    var a, b, c, e := v[i], EdgeEnd(v, i), w[j], EdgeEnd(w, j);
    ProperCrossExactly(a, b, c, e);
    WedgeIsDeterminant(a, b, c, e);
    hide At, ProperCross, Determinant, Wedge, Simple, InsideEdge, InBoth, Direction, StrictlyInside;
    var t: real, u: real :| 0.0 < t < 1.0 && 0.0 < u < 1.0 && At(a, b, t) == At(c, e, u);
    InnerPointsOnOneEdge(v, i, t);
    var x := InsideAlongCrossing(v, i, t, c, e, u);
    z := SharedBesideEdge(w, v, j, x);
    SwapBoth(w, v, z);
  }

  lemma SwapBoth(v: seq<Point>, w: seq<Point>, z: Point)
    requires InBoth(v, w, z)
    ensures InBoth(w, v, z)
  {
  }

  lemma ParamsInUnit(a: Point, b: Point, c: Point, d: Point)
    requires a != b
    ensures forall x :: x in Members(IntersectionParams(a, b, c, d)) ==> 0.0 <= x <= 1.0
  {
    hide Determinant, Param, Orientation, OffsetWedge;
  }

  lemma {:induction false} SplitsInUnit(a: Point, b: Point, w: seq<Point>, n: nat)
    requires a != b && n <= |w|
    ensures forall x :: x in Splits(a, b, w, n) ==> 0.0 <= x <= 1.0
  {
    hide IntersectionParams, Members;
    if n > 0 {
      SplitsInUnit(a, b, w, n - 1);
      ParamsInUnit(a, b, w[n - 1], EdgeEnd(w, n - 1));
    }
  }

  lemma PartGivesShared(v: seq<Point>, w: seq<Point>, i: nat) returns (z: Point)
    requires Simple(v) && i < |v| && v[i] != EdgeEnd(v, i) && PartInside(v[i], EdgeEnd(v, i), w)
    ensures InBoth(v, w, z)
  {
    var cuts := Sorted(Splits(v[i], EdgeEnd(v, i), w, |w|));
    var k :| 0 <= k < |cuts| - 1 && MiddleInside(v[i], EdgeEnd(v, i), w, cuts, k);
    SplitsInUnit(v[i], EdgeEnd(v, i), w, |w|);
    hide Splits, StrictlyInside, Simple, At;
    assert cuts[k] in cuts && cuts[k + 1] in cuts && cuts[k] < cuts[k + 1];
    hide Sorted;
    z := SharedBesideEdge(v, w, i, (cuts[k] + cuts[k + 1]) / 2.0);
  }

  /** Some point is strictly inside both rings. */
  ghost predicate ShareInterior(v: seq<Point>, w: seq<Point>) { exists z: Point :: InBoth(v, w, z) }

  lemma SharedSwaps(v: seq<Point>, w: seq<Point>)
    requires ShareInterior(v, w)
    ensures ShareInterior(w, v)
  {
    var z: Point :| InBoth(v, w, z);
    SwapBoth(v, w, z);
    hide InBoth;
  }

  lemma OneWay(v: seq<Point>, w: seq<Point>)
    requires Simple(v) && (VertexInside(v, w) || SomePartInside(v, w))
    ensures ShareInterior(v, w)
  {
    hide Simple, StrictlyInside, PartInside, InBoth;
    if VertexInside(v, w) {
      var i :| 0 <= i < |v| && StrictlyInside(w, v[i]);
      var z := VertexGivesShared(v, w, i);
    } else {
      var i :| 0 <= i < |v| && v[i] != EdgeEnd(v, i) && PartInside(v[i], EdgeEnd(v, i), w);
      var z := PartGivesShared(v, w, i);
    }
  }

  /** The rings share area: every point of some box is strictly inside both. */
  ghost predicate ShareArea(v: seq<Point>, w: seq<Point>) { exists z: Point, eps: real :: eps > 0.0 && BoxInBoth(v, w, z, eps) }

  ghost predicate BoxInBoth(v: seq<Point>, w: seq<Point>, z: Point, eps: real) { forall y: Point :: Near(z, y, eps) ==> InBoth(v, w, y) }

  /** Insides are open: around a shared inner point there is shared area. */
  lemma PointGivesArea(v: seq<Point>, w: seq<Point>)
    requires ShareInterior(v, w)
    ensures ShareArea(v, w)
  {
    hide StrictlyInside, PointOnSegment, Near, ClearOf;
    var z: Point :| InBoth(v, w, z);
    OffBoundary(v, z);
    OffBoundary(w, z);
    var first := BoxOffRing(v, z, |v|, {});
    var second := BoxOffRing(w, z, |w|, {});
    var eps := Min(first, second);
    forall y: Point | Near(z, y, eps) ensures InBoth(v, w, y) {
      NearerIsNear(z, y, eps, first);
      NearerIsNear(z, y, eps, second);
      InsideNearby(v, z, first, y);
      InsideNearby(w, z, second, y);
    }
    assert eps > 0.0 && BoxInBoth(v, w, z, eps);
  }

  lemma AreaHasPoints(v: seq<Point>, w: seq<Point>)
    requires ShareArea(v, w)
    ensures ShareInterior(v, w)
  {
    hide InBoth;
    var z: Point, eps: real :| eps > 0.0 && BoxInBoth(v, w, z, eps);
    assert Near(z, z, eps) && InBoth(v, w, z);
  }

  /** A crossing, a contained vertex or a contained part of an edge is never a false alarm: the rings share area. */
  lemma FoundOverlapIsReal(v: seq<Point>, w: seq<Point>)
    requires Simple(v) && Simple(w)
    requires EdgesCross(v, w) || VertexInside(v, w) || VertexInside(w, v) || SomePartInside(v, w) || SomePartInside(w, v)
    ensures ShareArea(v, w)
  {
    hide Simple, EdgesCross, VertexInside, SomePartInside, ShareInterior, ShareArea;
    FoundPointIsReal(v, w);
    PointGivesArea(v, w);
  }

  lemma FoundPointIsReal(v: seq<Point>, w: seq<Point>)
    requires Simple(v) && Simple(w)
    requires EdgesCross(v, w) || VertexInside(v, w) || VertexInside(w, v) || SomePartInside(v, w) || SomePartInside(w, v)
    ensures ShareInterior(v, w)
  {
    if EdgesCross(v, w) {
      var i, j :| 0 <= i < |v| && 0 <= j < |w| && ProperCross(v[i], EdgeEnd(v, i), w[j], EdgeEnd(w, j));
      hide Simple, ProperCross, InBoth;
      var z := CrossingGivesShared(v, w, i, j);
    } else {
      hide Simple, VertexInside, SomePartInside, ShareInterior;
      if VertexInside(v, w) || SomePartInside(v, w) {
        OneWay(v, w);
      } else {
        OneWay(w, v);
        SharedSwaps(w, v);
      }
    }
  }

  // -- the early exit

  lemma {:induction false} LowestBelow(s: seq<real>, i: nat)
    requires i < |s|
    ensures Lowest(s) <= s[i] <= Highest(s)
    decreases |s|
  {
    if i > 0 { LowestBelow(s[1..], i - 1); }
  }

  /** What lies strictly inside a ring lies within its bounds. */
  lemma InsideBounds(v: seq<Point>, z: Point)
    requires v != [] && StrictlyInside(v, z)
    ensures Lowest(Xs(v)) <= z.x <= Highest(Xs(v)) && Lowest(Ys(v)) <= z.y <= Highest(Ys(v))
  {
    hide StrictlyInside, Lowest, Highest;
    if Beside(v, z) { FarIsOutside(v, z); }
    if z.x < Lowest(Xs(v)) {
      forall i | 0 <= i < |v| ensures v[i].x > z.x { LowestBelow(Xs(v), i); }
    }
    if z.x > Highest(Xs(v)) {
      forall i | 0 <= i < |v| ensures v[i].x < z.x { LowestBelow(Xs(v), i); }
    }
    if z.y < Lowest(Ys(v)) {
      forall i | 0 <= i < |v| ensures v[i].y > z.y { LowestBelow(Ys(v), i); }
    }
    if z.y > Highest(Ys(v)) {
      forall i | 0 <= i < |v| ensures v[i].y < z.y { LowestBelow(Ys(v), i); }
    }
  }

  /** The early exit is right: rings with separate bounds share no interior point, and no area. */
  lemma ApartBoundsShareNothing(v: seq<Point>, w: seq<Point>)
    requires v != [] && w != [] && BoundsApart(v, w)
    ensures !ShareInterior(v, w) && !ShareArea(v, w)
  {
    if ShareArea(v, w) { AreaHasPoints(v, w); }
    hide ShareArea;
    forall z: Point ensures !InBoth(v, w, z) {
      if InBoth(v, w, z) {
        InsideBounds(v, z);
        InsideBounds(w, z);
      }
      hide StrictlyInside, Lowest, Highest, Xs, Ys;
    }
  }
}
