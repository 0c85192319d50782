/** Exact segment predicates: orientation, intersection, intersection parameters and collinear overlap. */
module Segments {
  import opened ClearanceRoots

  datatype Point = Point(x: real, y: real)

  /** Twice the signed area of the triangle abc. */
  function Cross(a: Point, b: Point, c: Point): real {
    (b.x - a.x) * (c.y - a.y) - (b.y - a.y) * (c.x - a.x)
  }

  function Orientation(a: Point, b: Point, c: Point): int {
    if Cross(a, b, c) > 0.0 then 1 else if Cross(a, b, c) < 0.0 then -1 else 0
  }

  function Min(a: real, b: real): real { if a <= b then a else b }

  function Max(a: real, b: real): real { if a <= b then b else a }

  predicate WithinBox(p: Point, a: Point, b: Point) {
    Min(a.x, b.x) <= p.x <= Max(a.x, b.x) && Min(a.y, b.y) <= p.y <= Max(a.y, b.y)
  }

  predicate PointOnSegment(p: Point, a: Point, b: Point) { Orientation(a, b, p) == 0 && WithinBox(p, a, b) }

  /** General segment intersection, touching and collinear included. */
  predicate SegmentsIntersect(p1: Point, p2: Point, q1: Point, q2: Point) {
    var o1, o2 := Orientation(p1, p2, q1), Orientation(p1, p2, q2);
    var o3, o4 := Orientation(q1, q2, p1), Orientation(q1, q2, p2);
    if o1 != o2 && o3 != o4 then true
    else if o1 == 0 && WithinBox(q1, p1, p2) then true
    else if o2 == 0 && WithinBox(q2, p1, p2) then true
    else if o3 == 0 && WithinBox(p1, q1, q2) then true
    else o4 == 0 && WithinBox(p2, q1, q2)
  }

  /** Strict interior crossing: no endpoint of one lies on the line of the other. */
  predicate ProperCross(p1: Point, p2: Point, q1: Point, q2: Point) {
    var o1, o2 := Orientation(p1, p2, q1), Orientation(p1, p2, q2);
    var o3, o4 := Orientation(q1, q2, p1), Orientation(q1, q2, p2);
    o1 != 0 && o2 != 0 && o3 != 0 && o4 != 0 && o1 != o2 && o3 != o4
  }

  // -- points of a segment

  function At(a: Point, b: Point, t: real): Point { Point(a.x + (b.x - a.x) * t, a.y + (b.y - a.y) * t) }

  /** The closed segments share a point. */
  ghost predicate Meet(p1: Point, p2: Point, q1: Point, q2: Point) {
    exists t: real, u: real :: 0.0 <= t <= 1.0 && 0.0 <= u <= 1.0 && At(p1, p2, t) == At(q1, q2, u)
  }

  lemma MeetAt(p1: Point, p2: Point, q1: Point, q2: Point, t: real, u: real)
    requires 0.0 <= t <= 1.0 && 0.0 <= u <= 1.0 && At(p1, p2, t) == At(q1, q2, u)
    ensures Meet(p1, p2, q1, q2) && Meet(q1, q2, p1, p2)
  {
    hide At;
  }

  lemma Ends(a: Point, b: Point)
    ensures At(a, b, 0.0) == a && At(a, b, 1.0) == b
  {
  }

  /** Cross is affine in its last point. */
  lemma CrossAlong(a: Point, b: Point, c: Point, d: Point, u: real)
    ensures Cross(a, b, At(c, d, u)) == Cross(a, b, c) + (Cross(a, b, d) - Cross(a, b, c)) * u
  {
    var rx, ry := b.x - a.x, b.y - a.y;
    var sx, sy := d.x - c.x, d.y - c.y;
    var p := At(c, d, u);
    assert p.y - a.y == (c.y - a.y) + sy * u && p.x - a.x == (c.x - a.x) + sx * u;
    assert rx * ((c.y - a.y) + sy * u) == rx * (c.y - a.y) + (rx * sy) * u;
    assert ry * ((c.x - a.x) + sx * u) == ry * (c.x - a.x) + (ry * sx) * u;
    assert Cross(a, b, d) - Cross(a, b, c) == rx * sy - ry * sx;
  }

  /** How fast Cross changes along the other segment, and the other way round. */
  lemma CrossRates(p1: Point, p2: Point, q1: Point, q2: Point)
    ensures Cross(p1, p2, q2) - Cross(p1, p2, q1) == -(Cross(q1, q2, p2) - Cross(q1, q2, p1))
    ensures Cross(p1, p2, q2) - Cross(p1, p2, q1) == (p2.x - p1.x) * (q2.y - q1.y) - (p2.y - p1.y) * (q2.x - q1.x)
  {
  }

  lemma CrossAtEnds(a: Point, b: Point)
    ensures Cross(a, b, a) == 0.0 && Cross(a, b, b) == 0.0
  {
  }

  /** Points of the segment's own line have no area with it. */
  lemma CrossOnLine(a: Point, b: Point, t: real)
    ensures Cross(a, b, At(a, b, t)) == 0.0
  {
    CrossAlong(a, b, a, b, t);
    CrossAtEnds(a, b);
    hide Cross, At;
  }

  // -- collinear points

  /** Where the projection of c falls on the line a-b. */
  function Param(a: Point, b: Point, c: Point): real
    requires a != b
  {
    LengthPositive(a, b);
    ((c.x - a.x) * (b.x - a.x) + (c.y - a.y) * (b.y - a.y)) / LengthSquared(a, b)
  }

  function Square(x: real): real { x * x }

  lemma SquarePositive(x: real)
    ensures Square(x) >= 0.0
    ensures x != 0.0 ==> Square(x) > 0.0
  {
    if x != 0.0 {
      calc {
        Square(x);
        x * x;
      >
        0.0;
      }
    }
  }

  function LengthSquared(a: Point, b: Point): real { Square(b.x - a.x) + Square(b.y - a.y) }

  lemma LengthPositive(a: Point, b: Point)
    requires a != b
    ensures LengthSquared(a, b) > 0.0
  {
    DifferentPoints(a, b);
    SquarePositive(b.x - a.x);
    SquarePositive(b.y - a.y);
    hide Square;
  }

  lemma DifferentPoints(a: Point, b: Point)
    ensures a != b ==> a.x != b.x || a.y != b.y
  {
  }

  lemma DivideOut(x: real, t: real, n: real)
    requires n != 0.0 && x == t * n
    ensures x / n == t
  {
  }

  lemma CancelFactor(n: real, x: real, y: real)
    requires n != 0.0 && n * x == n * y
    ensures x == y
  {
    assert n * (x - y) == 0.0;
    if x != y { NonZero(n, x - y); }
  }

  /** A point collinear with a segment is the point at its own parameter. */
  lemma CollinearAt(a: Point, b: Point, c: Point)
    requires a != b && Cross(a, b, c) == 0.0
    ensures At(a, b, Param(a, b, c)) == c
  {
    var rx, ry, wx, wy := b.x - a.x, b.y - a.y, c.x - a.x, c.y - a.y;
    var n := LengthSquared(a, b);
    LengthPositive(a, b);
    var t := Param(a, b, c);
    assert t * n == wx * rx + wy * ry;
    assert rx * wy == ry * wx;
    assert n * (rx * t) == rx * (t * n) && n * (ry * t) == ry * (t * n);
    ProjectX(rx, ry, wx, wy);
    CancelFactor(n, rx * t, wx);
    CancelFactor(n, ry * t, wy);
  }

  lemma ProjectX(rx: real, ry: real, wx: real, wy: real)
    requires rx * wy == ry * wx
    ensures rx * (wx * rx + wy * ry) == (rx * rx + ry * ry) * wx
    ensures ry * (wx * rx + wy * ry) == (rx * rx + ry * ry) * wy
  {
    assert rx * (wx * rx + wy * ry) == rx * rx * wx + ry * (rx * wy);
    assert ry * (wx * rx + wy * ry) == rx * (ry * wx) + ry * ry * wy;
  }

  lemma ParamOfAt(a: Point, b: Point, t: real)
    requires a != b
    ensures Param(a, b, At(a, b, t)) == t
  {
    LengthPositive(a, b);
    var rx, ry := b.x - a.x, b.y - a.y;
    ProjectedMultiple(rx, ry, t);
    DivideOut((rx * t) * rx + (ry * t) * ry, t, LengthSquared(a, b));
  }

  lemma ProjectedMultiple(rx: real, ry: real, t: real)
    ensures (rx * t) * rx + (ry * t) * ry == t * (Square(rx) + Square(ry))
  {
    assert (rx * t) * rx == t * Square(rx);
    assert (ry * t) * ry == t * Square(ry);
  }

  lemma BetweenCoordinates(s: real, f: real, t: real)
    ensures 0.0 <= t <= 1.0 ==> Min(s, f) <= s + (f - s) * t <= Max(s, f)
    ensures s != f && Min(s, f) <= s + (f - s) * t <= Max(s, f) ==> 0.0 <= t <= 1.0
  {
    var d := f - s;
    var p, q := d * t, d * (1.0 - t);
    assert p + q == d;
    SignOfProduct(d, t);
    SignOfProduct(d, 1.0 - t);
    if d > 0.0 {
      assert Min(s, f) <= s + p <= Max(s, f) <==> p >= 0.0 && q >= 0.0;
    } else {
      assert Min(s, f) <= s + p <= Max(s, f) <==> p <= 0.0 && q <= 0.0;
    }
  }

  /** On the segment's line, inside its box means between its ends. */
  lemma BoxIsBetween(a: Point, b: Point, t: real)
    requires a != b
    ensures WithinBox(At(a, b, t), a, b) <==> 0.0 <= t <= 1.0
  {
    DifferentPoints(a, b);
    BetweenCoordinates(a.x, b.x, t);
    BetweenCoordinates(a.y, b.y, t);
    var p := At(a, b, t);
    assert p.x == a.x + (b.x - a.x) * t && p.y == a.y + (b.y - a.y) * t;
    hide Min, Max, At;
  }

  lemma PointIsItself(a: Point)
    ensures forall t: real :: At(a, a, t) == a
  {
    forall t: real ensures At(a, a, t) == a { assert 0.0 * t == 0.0; }
  }

  /** The test holds exactly for the points of the closed segment, also when that is one point. */
  lemma OnSegmentExactly(p: Point, a: Point, b: Point)
    ensures PointOnSegment(p, a, b) <==> exists t: real :: 0.0 <= t <= 1.0 && At(a, b, t) == p
  {
    if a == b {
      PointIsItself(a);
      assert PointOnSegment(p, a, b) <==> p == a;
      assert At(a, b, 0.0) == a;
      hide At, Cross;
      return;
    }
    if PointOnSegment(p, a, b) {
      CollinearAt(a, b, p);
      BoxIsBetween(a, b, Param(a, b, p));
      assert 0.0 <= Param(a, b, p) <= 1.0 && At(a, b, Param(a, b, p)) == p;
    }
    if t: real :| 0.0 <= t <= 1.0 && At(a, b, t) == p {
      CrossOnLine(a, b, t);
      BoxIsBetween(a, b, t);
    }
    hide Cross, At, Param, WithinBox;
  }
}
