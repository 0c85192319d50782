/** The segment predicates decide exactly which points two segments share. */
module SegmentMeetings {
  import opened Common
  import opened ClearanceRoots
  import opened Segments

  /** The point of a-b at parameter t lies on the closed segment c-d. */
  ghost predicate Shared(a: Point, b: Point, c: Point, d: Point, t: real) {
    exists u: real :: 0.0 <= u <= 1.0 && At(a, b, t) == At(c, d, u)
  }

  // -- transversal segments

  /** The determinant of two directions. */
  function Determinant(p1: Point, p2: Point, q1: Point, q2: Point): real {
    (p2.x - p1.x) * (q2.y - q1.y) - (p2.y - p1.y) * (q2.x - q1.x)
  }

  lemma Rates(p1: Point, p2: Point, q1: Point, q2: Point)
    ensures Cross(p1, p2, q2) - Cross(p1, p2, q1) == Determinant(p1, p2, q1, q2)
    ensures Cross(q1, q2, p2) - Cross(q1, q2, p1) == -Determinant(p1, p2, q1, q2)
    ensures Determinant(q1, q2, p1, p2) == -Determinant(p1, p2, q1, q2)
  {
    CrossRates(p1, p2, q1, q2);
  }

  /** What a shared point says about both parameters. */
  lemma MeetingEquations(p1: Point, p2: Point, q1: Point, q2: Point, t: real, u: real)
    requires At(p1, p2, t) == At(q1, q2, u)
    ensures Cross(p1, p2, q1) + Determinant(p1, p2, q1, q2) * u == 0.0
    ensures Cross(q1, q2, p1) - Determinant(p1, p2, q1, q2) * t == 0.0
  {
    Rates(p1, p2, q1, q2);
    CrossAlong(p1, p2, q1, q2, u);
    CrossAlong(q1, q2, p1, p2, t);
    CrossOnLine(p1, p2, t);
    CrossOnLine(q1, q2, u);
    hide Cross, At, Determinant;
    Negated(Determinant(p1, p2, q1, q2), t);
  }

  /** Two points with the same area over two independent directions are one. */
  lemma IndependentDirections(rx: real, ry: real, sx: real, sy: real, dx: real, dy: real)
    requires rx * dy == ry * dx && sx * dy == sy * dx && rx * sy - ry * sx != 0.0
    ensures dx == 0.0 && dy == 0.0
  {
    var n := rx * sy - ry * sx;
    assert n * dx == rx * (sy * dx) - sx * (ry * dx);
    assert n * dx == rx * (sx * dy) - sx * (rx * dy);
    assert n * dx == n * 0.0;
    CancelFactor(n, dx, 0.0);
    assert n * dy == sy * (rx * dy) - ry * (sx * dy);
    assert n * dy == sy * (ry * dx) - ry * (sy * dx);
    assert n * dy == n * 0.0;
    CancelFactor(n, dy, 0.0);
  }

  /** With independent directions the computed parameters give one common point. */
  lemma TransversalPoint(p1: Point, p2: Point, q1: Point, q2: Point, t: real, u: real)
    requires Determinant(p1, p2, q1, q2) != 0.0
    requires Cross(p1, p2, q1) + Determinant(p1, p2, q1, q2) * u == 0.0
    requires Cross(q1, q2, p1) - Determinant(p1, p2, q1, q2) * t == 0.0
    ensures At(p1, p2, t) == At(q1, q2, u)
  {
    var x, y := At(p1, p2, t), At(q1, q2, u);
    Rates(p1, p2, q1, q2);
    CrossAlong(p1, p2, q1, q2, u);
    CrossAlong(q1, q2, p1, p2, t);
    CrossOnLine(p1, p2, t);
    CrossOnLine(q1, q2, u);
    hide Cross, At;
    assert Cross(p1, p2, x) == Cross(p1, p2, y) && Cross(q1, q2, x) == Cross(q1, q2, y) by {
      hide Determinant;
      Negated(Determinant(p1, p2, q1, q2), t);
    }
    SameArea(p1, p2, x, y);
    SameArea(q1, q2, x, y);
    IndependentDirections(p2.x - p1.x, p2.y - p1.y, q2.x - q1.x, q2.y - q1.y, x.x - y.x, x.y - y.y);
    SamePoint(x, y);
  }

  lemma SameArea(a: Point, b: Point, x: Point, y: Point)
    requires Cross(a, b, x) == Cross(a, b, y)
    ensures (b.x - a.x) * (x.y - y.y) == (b.y - a.y) * (x.x - y.x)
  {
    assert (b.x - a.x) * (x.y - y.y) == (b.x - a.x) * (x.y - a.y) - (b.x - a.x) * (y.y - a.y);
    assert (b.y - a.y) * (x.x - y.x) == (b.y - a.y) * (x.x - a.x) - (b.y - a.y) * (y.x - a.x);
  }

  lemma SamePoint(x: Point, y: Point)
    requires x.x - y.x == 0.0 && x.y - y.y == 0.0
    ensures x == y
  {
  }

  // -- signs

  lemma Negated(n: real, t: real)
    ensures (-n) * t == -(n * t)
  {
  }

  lemma QuotientTimes(n: real, g: real)
    requires n != 0.0
    ensures n * (g / n) == g
  {
  }

  lemma BetweenZeroAndOne(f1: real, f2: real, n: real, u: real)
    requires n == f2 - f1 && n != 0.0 && f1 + n * u == 0.0
    requires (f1 >= 0.0 && f2 <= 0.0) || (f1 <= 0.0 && f2 >= 0.0)
    ensures 0.0 <= u <= 1.0
  {
    var p, q := n * u, n * (1.0 - u);
    assert p + q == n;
    assert p == -f1 && q == f2;
    SignOfProduct(n, u);
    SignOfProduct(n, 1.0 - u);
  }

  lemma ConvexPositive(f1: real, f2: real, u: real)
    requires f1 > 0.0 && f2 > 0.0 && 0.0 <= u <= 1.0
    ensures f1 + (f2 - f1) * u > 0.0
  {
    if f1 <= f2 {
      NotNegative(f2 - f1, u);
    } else {
      NotNegative(f1 - f2, 1.0 - u);
      assert (f1 - f2) * (1.0 - u) == (f1 - f2) + (f2 - f1) * u;
    }
  }

  lemma ConvexNegative(f1: real, f2: real, u: real)
    requires f1 < 0.0 && f2 < 0.0 && 0.0 <= u <= 1.0
    ensures f1 + (f2 - f1) * u < 0.0
  {
    ConvexPositive(-f1, -f2, u);
    assert (-f2 - -f1) * u == -((f2 - f1) * u);
  }

  /** A convex combination of two numbers of one strict sign is not zero. */
  lemma SignsCannotAgree(f1: real, f2: real, u: real)
    requires 0.0 <= u <= 1.0 && f1 + (f2 - f1) * u == 0.0
    ensures !(f1 > 0.0 && f2 > 0.0) && !(f1 < 0.0 && f2 < 0.0)
  {
    if f1 > 0.0 && f2 > 0.0 { ConvexPositive(f1, f2, u); }
    if f1 < 0.0 && f2 < 0.0 { ConvexNegative(f1, f2, u); }
  }

  // -- collinear segments

  /** One coordinate on the way from p to q. */
  function Along(p: real, q: real, t: real): real { p + (q - p) * t }

  lemma AlongAlong(p: real, q: real, s1: real, s2: real, s: real)
    ensures Along(Along(p, q, s1), Along(p, q, s2), s) == Along(p, q, Along(s1, s2, s))
  {
    var d := q - p;
    var x, y := d * s1, d * s2;
    assert y - x == d * (s2 - s1);
    assert (d * (s2 - s1)) * s == d * ((s2 - s1) * s);
    assert d * s1 + d * ((s2 - s1) * s) == d * (s1 + (s2 - s1) * s);
  }

  lemma AtAlong(a: Point, b: Point, t: real)
    ensures At(a, b, t) == Point(Along(a.x, b.x, t), Along(a.y, b.y, t))
  {
  }

  lemma OnLinePoints(a: Point, b: Point, s1: real, s2: real, s: real)
    ensures At(At(a, b, s1), At(a, b, s2), s) == At(a, b, s1 + (s2 - s1) * s)
  {
    AtAlong(a, b, s1);
    AtAlong(a, b, s2);
    AtAlong(At(a, b, s1), At(a, b, s2), s);
    assert s1 + (s2 - s1) * s == Along(s1, s2, s);
    AtAlong(a, b, Along(s1, s2, s));
    hide At, Along;
    AlongAlong(a.x, b.x, s1, s2, s);
    AlongAlong(a.y, b.y, s1, s2, s);
  }

  /** A shared parameter lies between those of the other segment's ends. */
  lemma SharedIsBetween(a: Point, b: Point, tc: real, td: real, t: real, u: real)
    requires a != b && 0.0 <= u <= 1.0 && At(a, b, t) == At(At(a, b, tc), At(a, b, td), u)
    ensures Min(tc, td) <= t <= Max(tc, td)
  {
    OnLinePoints(a, b, tc, td, u);
    ParamOfAt(a, b, t);
    ParamOfAt(a, b, tc + (td - tc) * u);
    BetweenCoordinates(tc, td, u);
    hide At, Param, Min, Max;
  }

  /** And every parameter between them is shared. */
  lemma BetweenIsShared(a: Point, b: Point, tc: real, td: real, t: real)
    requires tc != td && Min(tc, td) <= t <= Max(tc, td)
    ensures Shared(a, b, At(a, b, tc), At(a, b, td), t)
  {
    var u := (t - tc) / (td - tc);
    assert (td - tc) * u == t - tc;
    OnLinePoints(a, b, tc, td, u);
    BetweenCoordinates(tc, td, u);
    hide At, Min, Max;
    assert 0.0 <= u <= 1.0 && At(a, b, t) == At(At(a, b, tc), At(a, b, td), u);
  }

  /** The part of the line of a-b that the collinear segment c-d covers. */
  lemma CollinearMeeting(a: Point, b: Point, c: Point, d: Point, t: real)
    requires a != b && c != d && Cross(a, b, c) == 0.0 && Cross(a, b, d) == 0.0
    ensures Param(a, b, c) != Param(a, b, d)
    ensures Shared(a, b, c, d, t) <==> Min(Param(a, b, c), Param(a, b, d)) <= t <= Max(Param(a, b, c), Param(a, b, d))
  {
    var tc, td := Param(a, b, c), Param(a, b, d);
    CollinearAt(a, b, c);
    CollinearAt(a, b, d);
    hide Param, Cross, At, Min, Max;
    if Shared(a, b, c, d, t) {
      var u: real :| 0.0 <= u <= 1.0 && At(a, b, t) == At(c, d, u);
      SharedIsBetween(a, b, tc, td, t, u);
    }
    if Min(tc, td) <= t <= Max(tc, td) { BetweenIsShared(a, b, tc, td, t); }
  }

  // -- the intersection test

  /** Opposite sides on both lines: the segments meet. */
  lemma StraddlingMeet(p1: Point, p2: Point, q1: Point, q2: Point)
    requires Orientation(p1, p2, q1) != Orientation(p1, p2, q2) && Orientation(q1, q2, p1) != Orientation(q1, q2, p2)
    ensures Meet(p1, p2, q1, q2)
  {
    hide Cross, Determinant, At, Meet;
    var n := Determinant(p1, p2, q1, q2);
    var f1, f2, g1, g2 := Cross(p1, p2, q1), Cross(p1, p2, q2), Cross(q1, q2, p1), Cross(q1, q2, p2);
    Rates(p1, p2, q1, q2);
    assert f2 - f1 == n && g2 - g1 == -n && n != 0.0;
    var u, t := (-f1) / n, g1 / n;
    QuotientTimes(n, -f1);
    QuotientTimes(n, g1);
    Negated(n, t);
    TransversalPoint(p1, p2, q1, q2, t, u);
    BetweenZeroAndOne(f1, f2, n, u);
    BetweenZeroAndOne(g1, g2, -n, t);
    MeetAt(p1, p2, q1, q2, t, u);
  }

  /** An endpoint on the other segment: the segments meet. */
  lemma TouchingMeet(p1: Point, p2: Point, q1: Point, q2: Point)
    ensures PointOnSegment(q1, p1, p2) || PointOnSegment(q2, p1, p2) ==> Meet(p1, p2, q1, q2) && Meet(q1, q2, p1, p2)
  {
    Ends(q1, q2);
    OnSegmentExactly(q1, p1, p2);
    OnSegmentExactly(q2, p1, p2);
    hide PointOnSegment, At, Meet;
    if PointOnSegment(q1, p1, p2) {
      var t: real :| 0.0 <= t <= 1.0 && At(p1, p2, t) == q1;
      MeetAt(p1, p2, q1, q2, t, 0.0);
    }
    if PointOnSegment(q2, p1, p2) {
      var t: real :| 0.0 <= t <= 1.0 && At(p1, p2, t) == q2;
      MeetAt(p1, p2, q1, q2, t, 1.0);
    }
  }

  /** Meeting segments on one line: an endpoint of one lies on the other. */
  lemma CollinearTouch(p1: Point, p2: Point, q1: Point, q2: Point, t: real)
    requires p1 != p2 && q1 != q2 && Cross(p1, p2, q1) == 0.0 && Cross(p1, p2, q2) == 0.0
    requires 0.0 <= t <= 1.0 && Shared(p1, p2, q1, q2, t)
    ensures PointOnSegment(q1, p1, p2) || PointOnSegment(q2, p1, p2) || PointOnSegment(p1, q1, q2)
  {
    var s1, s2 := Param(p1, p2, q1), Param(p1, p2, q2);
    CollinearMeeting(p1, p2, q1, q2, t);
    CollinearMeeting(p1, p2, q1, q2, 0.0);
    CollinearAt(p1, p2, q1);
    CollinearAt(p1, p2, q2);
    BoxIsBetween(p1, p2, s1);
    BoxIsBetween(p1, p2, s2);
    Ends(p1, p2);
    OnSegmentExactly(p1, q1, q2);
    if Min(s1, s2) <= 0.0 <= Max(s1, s2) {
      var u: real :| 0.0 <= u <= 1.0 && At(p1, p2, 0.0) == At(q1, q2, u);
      assert At(q1, q2, u) == p1;
    }
    hide Param, Cross, At, WithinBox, Shared;
  }

  lemma MeetTouches(p1: Point, p2: Point, q1: Point, q2: Point)
    requires p1 != p2 && q1 != q2 && Meet(p1, p2, q1, q2)
    requires Orientation(p1, p2, q1) == Orientation(p1, p2, q2) || Orientation(q1, q2, p1) == Orientation(q1, q2, p2)
    ensures PointOnSegment(q1, p1, p2) || PointOnSegment(q2, p1, p2) || PointOnSegment(p1, q1, q2)
  {
    hide Cross, At, Determinant, PointOnSegment;
    var t: real, u: real :| 0.0 <= t <= 1.0 && 0.0 <= u <= 1.0 && At(p1, p2, t) == At(q1, q2, u);
    MeetingEquations(p1, p2, q1, q2, t, u);
    Rates(p1, p2, q1, q2);
    var f1, f2, g1, g2 := Cross(p1, p2, q1), Cross(p1, p2, q2), Cross(q1, q2, p1), Cross(q1, q2, p2);
    var n := Determinant(p1, p2, q1, q2);
    Negated(n, t);
    SignsCannotAgree(f1, f2, u);
    SignsCannotAgree(g1, g2, t);
    assert Shared(p1, p2, q1, q2, t);
    assert n == 0.0;
    assert n * u == 0.0;
    assert f1 == 0.0 && f2 == 0.0;
    hide Shared, Meet;
    CollinearTouch(p1, p2, q1, q2, t);
  }

  /** A segment that is one point meets another exactly where that point lies on it. */
  lemma PointMeets(p: Point, q1: Point, q2: Point)
    ensures Meet(p, p, q1, q2) || Meet(q1, q2, p, p) ==> PointOnSegment(p, q1, q2)
  {
    OnSegmentExactly(p, q1, q2);
    PointIsItself(p);
    hide PointOnSegment, At;
    if Meet(p, p, q1, q2) {
      var t: real, u: real :| 0.0 <= t <= 1.0 && 0.0 <= u <= 1.0 && At(p, p, t) == At(q1, q2, u);
      assert At(q1, q2, u) == p;
    }
    if Meet(q1, q2, p, p) {
      var u: real, t: real :| 0.0 <= u <= 1.0 && 0.0 <= t <= 1.0 && At(q1, q2, u) == At(p, p, t);
      assert At(q1, q2, u) == p;
    }
  }

  /** The intersection test holds exactly when the closed segments share a point, segments without length included. */
  lemma IntersectExactly(p1: Point, p2: Point, q1: Point, q2: Point)
    ensures SegmentsIntersect(p1, p2, q1, q2) <==> Meet(p1, p2, q1, q2)
  {
    TouchingMeet(p1, p2, q1, q2);
    TouchingMeet(q1, q2, p1, p2);
    if Orientation(p1, p2, q1) != Orientation(p1, p2, q2) && Orientation(q1, q2, p1) != Orientation(q1, q2, p2) {
      StraddlingMeet(p1, p2, q1, q2);
    } else if Meet(p1, p2, q1, q2) {
      if p1 == p2 {
        PointMeets(p1, q1, q2);
      } else if q1 == q2 {
        PointMeets(q1, p1, p2);
      } else {
        MeetTouches(p1, p2, q1, q2);
      }
    }
    hide Orientation, WithinBox, Meet;
  }

  // -- the intersection parameters

  /** The wedge of the offset from a to c with the direction from p to q. */
  function OffsetWedge(a: Point, c: Point, p: Point, q: Point): real {
    (c.x - a.x) * (q.y - p.y) - (c.y - a.y) * (q.x - p.x)
  }

  /** Parameters on a-b where it meets c-d: none, one, or the two ends of a common stretch. */
  function IntersectionParams(a: Point, b: Point, c: Point, d: Point): seq<real>
    requires a != b
  {
    var n := Determinant(a, b, c, d);
    if n != 0.0 then
      var t, u := OffsetWedge(a, c, c, d) / n, OffsetWedge(a, c, a, b) / n;
      if 0.0 <= t <= 1.0 && 0.0 <= u <= 1.0 then [t] else []
    else if Orientation(a, b, c) != 0 then []
    else
      var low, high := Max(Min(Param(a, b, c), Param(a, b, d)), 0.0), Min(Max(Param(a, b, c), Param(a, b, d)), 1.0);
      if low > high then [] else if low == high then [low] else [low, high]
  }

  /** The stretch of parameters a result stands for. */
  predicate InStretch(params: seq<real>, t: real) {
    params != [] && params[0] <= t <= params[|params| - 1]
  }

  lemma SolvedParams(a: Point, b: Point, c: Point, d: Point) returns (t0: real, u0: real)
    requires a != b && Determinant(a, b, c, d) != 0.0
    ensures Cross(a, b, c) + Determinant(a, b, c, d) * u0 == 0.0 && Cross(c, d, a) - Determinant(a, b, c, d) * t0 == 0.0
    ensures IntersectionParams(a, b, c, d) == if 0.0 <= t0 <= 1.0 && 0.0 <= u0 <= 1.0 then [t0] else []
  {
    hide Cross, Determinant, Orientation, Param, OffsetWedge;
    var n, g, f := Determinant(a, b, c, d), OffsetWedge(a, c, c, d), OffsetWedge(a, c, a, b);
    CrossesOf(a, b, c, d);
    t0, u0 := g / n, f / n;
    QuotientTimes(n, g);
    QuotientTimes(n, f);
  }

  lemma CrossesOf(a: Point, b: Point, c: Point, d: Point)
    ensures Cross(c, d, a) == OffsetWedge(a, c, c, d) && Cross(a, b, c) == -OffsetWedge(a, c, a, b)
  {
  }

  lemma TransversalParams(a: Point, b: Point, c: Point, d: Point, t: real)
    requires a != b && Determinant(a, b, c, d) != 0.0
    ensures 0.0 <= t <= 1.0 && Shared(a, b, c, d, t) <==> InStretch(IntersectionParams(a, b, c, d), t)
  {
    var n := Determinant(a, b, c, d);
    hide Cross, Determinant, At, IntersectionParams;
    var t0, u0 := SolvedParams(a, b, c, d);
    TransversalPoint(a, b, c, d, t0, u0);
    if Shared(a, b, c, d, t) {
      var u: real :| 0.0 <= u <= 1.0 && At(a, b, t) == At(c, d, u);
      MeetingEquations(a, b, c, d, t, u);
      CancelFactor(n, t, t0);
      CancelFactor(n, u, u0);
    }
  }

  /** A single point on the line of a-b is met at its own parameter only. */
  lemma PointParams(a: Point, b: Point, c: Point, t: real)
    requires a != b
    ensures 0.0 <= t <= 1.0 && Shared(a, b, c, c, t) <==> InStretch(IntersectionParams(a, b, c, c), t)
  {
    PointIsItself(c);
    if Cross(a, b, c) == 0.0 { CollinearAt(a, b, c); }
    CrossOnLine(a, b, t);
    ParamOfAt(a, b, t);
    assert Determinant(a, b, c, c) == 0.0;
    hide Cross, At, Param, Determinant;
    if Shared(a, b, c, c, t) { assert At(a, b, t) == c; }
    if Cross(a, b, c) == 0.0 && t == Param(a, b, c) { assert At(a, b, t) == At(c, c, 0.0); }
  }

  lemma ParallelParams(a: Point, b: Point, c: Point, d: Point, t: real)
    requires a != b && c != d && Determinant(a, b, c, d) == 0.0
    ensures 0.0 <= t <= 1.0 && Shared(a, b, c, d, t) <==> InStretch(IntersectionParams(a, b, c, d), t)
  {
    Rates(a, b, c, d);
    assert Cross(a, b, d) == Cross(a, b, c);
    if Cross(a, b, c) == 0.0 {
      CollinearMeeting(a, b, c, d, t);
      hide Cross, At, Param, Shared, Determinant;
    } else if Shared(a, b, c, d, t) {
      var u: real :| 0.0 <= u <= 1.0 && At(a, b, t) == At(c, d, u);
      MeetingEquations(a, b, c, d, t, u);
      hide Cross, At, Param, Shared;
    }
  }

  /** The parameters describe exactly the shared points: a parameter of a-b is shared when it lies in the stretch. */
  lemma ParamsExactly(a: Point, b: Point, c: Point, d: Point, t: real)
    requires a != b
    ensures 0.0 <= t <= 1.0 && Shared(a, b, c, d, t) <==> InStretch(IntersectionParams(a, b, c, d), t)
  {
    if Determinant(a, b, c, d) != 0.0 {
      TransversalParams(a, b, c, d, t);
    } else if c != d {
      ParallelParams(a, b, c, d, t);
    } else {
      PointParams(a, b, c, t);
    }
    hide *;
  }

  /** Both predicates agree: the segments intersect exactly when there is an intersection parameter. */
  lemma IntersectAgreesWithParams(a: Point, b: Point, c: Point, d: Point)
    requires a != b
    ensures SegmentsIntersect(a, b, c, d) <==> IntersectionParams(a, b, c, d) != []
  {
    var params := IntersectionParams(a, b, c, d);
    IntersectExactly(a, b, c, d);
    ParamsOrdered(a, b, c, d);
    if params != [] { ParamsExactly(a, b, c, d, params[0]); }
    hide SegmentsIntersect, IntersectionParams, At;
    if Meet(a, b, c, d) {
      var t: real, u: real :| 0.0 <= t <= 1.0 && 0.0 <= u <= 1.0 && At(a, b, t) == At(c, d, u);
      ParamsExactly(a, b, c, d, t);
    }
    if params != [] && Shared(a, b, c, d, params[0]) {
      var u: real :| 0.0 <= u <= 1.0 && At(a, b, params[0]) == At(c, d, u);
      MeetAt(a, b, c, d, params[0], u);
    }
  }

  lemma ParamsOrdered(a: Point, b: Point, c: Point, d: Point)
    requires a != b
    ensures var params := IntersectionParams(a, b, c, d);
            |params| <= 2 && (params != [] ==> InStretch(params, params[0])) && (|params| == 2 ==> params[0] < params[1])
  {
    hide Determinant, Param, Orientation, Cross;
  }

  // -- collinear overlap

  /** The stretch of positive length that c-d shares with a-b along one line. */
  function OverlapInterval(a: Point, b: Point, c: Point, d: Point): Option<(real, real)>
    requires a != b
  {
    if Determinant(a, b, c, d) != 0.0 || Orientation(a, b, c) != 0 then None
    else
      var low, high := Max(Min(Param(a, b, c), Param(a, b, d)), 0.0), Min(Max(Param(a, b, c), Param(a, b, d)), 1.0);
      if low >= high then None else Some((low, high))
  }

  /** Two segments share two different points. */
  ghost predicate ShareTwo(a: Point, b: Point, c: Point, d: Point) {
    exists t1: real, u1: real, t2: real, u2: real :: MeetsAt(a, b, c, d, t1, u1) && MeetsAt(a, b, c, d, t2, u2) && t1 != t2
  }

  predicate MeetsAt(a: Point, b: Point, c: Point, d: Point, t: real, u: real) {
    0.0 <= t <= 1.0 && 0.0 <= u <= 1.0 && At(a, b, t) == At(c, d, u)
  }

  lemma OverlapIsTwoParams(a: Point, b: Point, c: Point, d: Point)
    requires a != b
    ensures OverlapInterval(a, b, c, d).Some? <==> |IntersectionParams(a, b, c, d)| == 2
  {
    hide Determinant, Param, Orientation, Cross;
  }

  /** There is an overlap of positive length exactly when two different points are shared. */
  lemma OverlapExactly(a: Point, b: Point, c: Point, d: Point)
    requires a != b
    ensures OverlapInterval(a, b, c, d).Some? <==> ShareTwo(a, b, c, d)
  {
    var params := IntersectionParams(a, b, c, d);
    OverlapIsTwoParams(a, b, c, d);
    ParamsOrdered(a, b, c, d);
    hide OverlapInterval, IntersectionParams, At, Shared;
    if |params| == 2 {
      ParamsExactly(a, b, c, d, params[0]);
      ParamsExactly(a, b, c, d, params[1]);
      var u1 := SharedAt(a, b, c, d, params[0]);
      var u2 := SharedAt(a, b, c, d, params[1]);
    }
    if t1: real, u1: real, t2: real, u2: real :| MeetsAt(a, b, c, d, t1, u1) && MeetsAt(a, b, c, d, t2, u2) && t1 != t2 {
      MeetsShared(a, b, c, d, t1, u1);
      MeetsShared(a, b, c, d, t2, u2);
      ParamsExactly(a, b, c, d, t1);
      ParamsExactly(a, b, c, d, t2);
    }
  }

  lemma SharedAt(a: Point, b: Point, c: Point, d: Point, t: real) returns (u: real)
    requires 0.0 <= t <= 1.0 && Shared(a, b, c, d, t)
    ensures MeetsAt(a, b, c, d, t, u)
  {
    u :| 0.0 <= u <= 1.0 && At(a, b, t) == At(c, d, u);
  }

  lemma MeetsShared(a: Point, b: Point, c: Point, d: Point, t: real, u: real)
    requires MeetsAt(a, b, c, d, t, u)
    ensures Shared(a, b, c, d, t) && MeetsAt(c, d, a, b, u, t)
  {
  }

  /** Overlap of positive length is mutual. */
  lemma OverlapIsSymmetric(a: Point, b: Point, c: Point, d: Point)
    requires a != b && c != d
    ensures OverlapInterval(a, b, c, d).Some? <==> OverlapInterval(c, d, a, b).Some?
  {
    OverlapExactly(a, b, c, d);
    OverlapExactly(c, d, a, b);
    hide OverlapInterval;
    if ShareTwo(a, b, c, d) { ShareTwoSwaps(a, b, c, d); }
    if ShareTwo(c, d, a, b) { ShareTwoSwaps(c, d, a, b); }
  }

  lemma ShareTwoSwaps(a: Point, b: Point, c: Point, d: Point)
    requires a != b && c != d && ShareTwo(a, b, c, d)
    ensures ShareTwo(c, d, a, b)
  {
    var t1: real, u1: real, t2: real, u2: real :| MeetsAt(a, b, c, d, t1, u1) && MeetsAt(a, b, c, d, t2, u2) && t1 != t2;
    ParamOfAt(a, b, t1);
    ParamOfAt(a, b, t2);
    MeetsShared(a, b, c, d, t1, u1);
    MeetsShared(a, b, c, d, t2, u2);
    hide At, Param;
    assert u1 != u2;
  }
}
