/** The overlap decision is right: it holds exactly if two valid rings share interior area. */
module RingSharing {
  import opened ClearanceRoots
  import opened Segments
  import opened SegmentMeetings
  import opened Rings
  import opened RingParity
  import opened RingOverlap
  import opened RingDecision
  import opened RingSides
  import opened RingCorners
  import RingArea

  // -- parallel edges

  /** Sides of two edges on one line: they are the same hand just if the edges have the same heading. */
  lemma HandsOfParallel(a: Point, b: Point, c: Point, d: Point, z: Point)
    requires a != b && c != d && Determinant(a, b, c, d) == 0.0 && Cross(a, b, c) == 0.0 && Cross(a, b, z) != 0.0
    ensures Cross(c, d, z) != 0.0 && ((Cross(a, b, z) > 0.0 <==> Cross(c, d, z) > 0.0) <==> SameHeading(a, b, c, d))
  {
    LengthPositive(a, b);
    ParallelNotSquare(a, b, c, d);
    var dot, length := Dot(Direction(a, b), Direction(c, d)), LengthSquared(a, b);
    FromTheLine(a, b, c, z);
    Parallel(b.x - a.x, b.y - a.y, d.x - c.x, d.y - c.y, z.x - c.x, z.y - c.y);
    assert length * Cross(c, d, z) == dot * Cross(a, b, z);
    hide Cross, Dot, LengthSquared;
    SignOfProduct(length, Cross(c, d, z));
    SignOfProduct(dot, Cross(a, b, z));
  }

  lemma FromTheLine(a: Point, b: Point, c: Point, z: Point)
    requires Cross(a, b, c) == 0.0
    ensures Cross(a, b, z) == (b.x - a.x) * (z.y - c.y) - (b.y - a.y) * (z.x - c.x)
  {
    CrossDifference(a, b, c, z);
  }

  lemma Parallel(p: real, q: real, e: real, f: real, g: real, h: real)
    requires p * f - q * e == 0.0
    ensures (p * p + q * q) * (e * h - f * g) == (p * e + q * f) * (p * h - q * g)
  {
    var k := p * f - q * e;
    assert (p * p + q * q) * (e * h - f * g) == (p * e + q * f) * (p * h - q * g) - k * (p * g + q * h);
  }

  lemma SharedInner(a: Point, b: Point, c: Point, d: Point) returns (t: real, u: real)
    requires a != b && c != d && ShareTwo(a, b, c, d)
    ensures 0.0 < t < 1.0 && 0.0 < u < 1.0 && At(a, b, t) == At(c, d, u)
  {
    var t1: real, u1: real, t2: real, u2: real :| MeetsAt(a, b, c, d, t1, u1) && MeetsAt(a, b, c, d, t2, u2) && t1 != t2;
    ParamOfAt(a, b, t1);
    ParamOfAt(a, b, t2);
    OnLinePoints(a, b, t1, t2, 0.5);
    OnLinePoints(c, d, u1, u2, 0.5);
    hide At, Param;
    assert u1 != u2;
    t, u := t1 + (t2 - t1) * 0.5, u1 + (u2 - u1) * 0.5;
  }

  /** Parallel edges with an inner point in common share a piece of positive length. */
  lemma InnerSharesTwo(a: Point, b: Point, c: Point, d: Point, t: real, u: real)
    requires a != b && c != d && Determinant(a, b, c, d) == 0.0
    requires 0.0 < t < 1.0 && 0.0 < u < 1.0 && At(a, b, t) == At(c, d, u)
    ensures ShareTwo(a, b, c, d) && Cross(a, b, c) == 0.0
  {
    MeetingEquations(a, b, c, d, t, u);
    Rates(a, b, c, d);
    CollinearAt(a, b, c);
    CollinearAt(a, b, d);
    var tc, td := Param(a, b, c), Param(a, b, d);
    OnLinePoints(a, b, tc, td, u);
    ParamOfAt(a, b, t);
    ParamOfAt(a, b, tc + (td - tc) * u);
    assert t == tc + (td - tc) * u && tc != td by { hide Cross, Determinant, Param; }
    hide Cross, Determinant, Param, At;
    InnerCoordinate(tc, td - tc, u, t);
    OverlapExactly(a, b, c, d);
  }

  // -- edges side by side share area

  /** A point of edge i, and a box around it that every other edge misses. */
  ghost predicate BoxedAt(v: seq<Point>, i: nat, t: real, m: Point, eps: real) {
    i < |v| && 0.0 < t < 1.0 && m == At(v[i], EdgeEnd(v, i), t) && eps > 0.0 && ClearOf(v, m, eps, |v|, {i})
  }

  lemma BoxFound(v: seq<Point>, i: nat, t: real) returns (eps: real)
    requires Simple(v) && i < |v| && 0.0 < t < 1.0
    ensures BoxedAt(v, i, t, At(v[i], EdgeEnd(v, i), t), eps)
  {
    InnerPointsOnOneEdge(v, i, t);
    hide At, PointOnSegment, ClearOf, Simple;
    eps := BoxOffRing(v, At(v[i], EdgeEnd(v, i), t), |v|, {i});
  }

  /** In that box, off the edge's line, a point is strictly inside exactly on the hand that the ring's turn says. */
  lemma InsideByTurn(v: seq<Point>, i: nat, t: real, m: Point, eps: real, z: Point)
    requires Simple(v) && BoxedAt(v, i, t, m, eps) && Near(m, z, eps) && Cross(v[i], EdgeEnd(v, i), z) != 0.0
    ensures StrictlyInside(v, z) == (CounterClockwise(v) == (Cross(v[i], EdgeEnd(v, i), z) > 0.0))
  {
    assert {i, i} == {i} && Near(m, m, eps);
    hide Simple, ClearOf, Near, OnlyMeets, StrictlyInside, CounterClockwise, LeftIn, Cross, At;
    MeetsOwnOnly(v, i, i, m, eps, m, z);
    SideTold(v, i, t, z);
    InnerSideIsTurn(v, i);
  }

  lemma ShiftedHand(a: Point, b: Point, t: real, s: real)
    requires a != b
    ensures Cross(a, b, Shifted(At(a, b, t), Across(a, b), s)) == Times(LengthSquared(a, b), s)
  {
    var m, d := At(a, b, t), Across(a, b);
    CrossOnLine(a, b, t);
    CrossDifference(a, b, m, Shifted(m, d, s));
    var rx, ry := b.x - a.x, b.y - a.y;
    hide Cross, At;
    assert Times(rx, Times(rx, s)) - Times(ry, Times(-ry, s)) == Times(LengthSquared(a, b), s) by { ShiftedProducts(rx, ry, s); }
  }

  lemma ShiftedProducts(rx: real, ry: real, s: real)
    ensures rx * (rx * s) - ry * (-ry * s) == (rx * rx + ry * ry) * s
  {
    assert rx * (rx * s) == (rx * rx) * s && ry * (-ry * s) == -((ry * ry) * s);
  }

  /** A point in the box, on the left or on the right as wanted. */
  lemma HandInBox(a: Point, b: Point, t: real, left: bool, eps: real) returns (z: Point)
    requires a != b && eps > 0.0
    ensures Near(At(a, b, t), z, eps) && Cross(a, b, z) != 0.0 && (Cross(a, b, z) > 0.0) == left
  {
    var m, d := At(a, b, t), Across(a, b);
    LengthIsPositive(d);
    LengthPositive(a, b);
    hide Cross, At, Shifted, Near, LengthSquared, Abs, Across;
    var s := SmallShare(eps, Length(d));
    ShiftedIsNear(m, d, s, eps);
    ShiftedHand(a, b, t, s);
    ShiftedHand(a, b, t, -s);
    SignOfTimes(LengthSquared(a, b), s);
    SignOfTimes(LengthSquared(a, b), -s);
    hide Times;
    z := if left then Shifted(m, d, s) else Shifted(m, d, -s);
  }

  lemma NormalIsAcross(a: Point, b: Point, m: Point, ccw: bool, s: real)
    ensures Shifted(m, InteriorNormal(a, b, ccw), s) == Shifted(m, Across(a, b), if ccw then s else -s)
  {
    BothNegated(b.y - a.y, s);
    BothNegated(-(b.x - a.x), s);
    hide Times;
  }

  lemma BothNegated(x: real, s: real)
    ensures Times(-x, -s) == Times(x, s)
  {
  }

  lemma ShorterStep(k: real, s: real, far: real)
    requires k >= 0.0 && s <= far
    ensures Times(k, s) <= Times(k, far)
  {
    NotNegative(k, far - s);
    assert k * (far - s) == k * far - k * s;
  }

  /** A step across an edge from an inner point, within its box: inside exactly on the inner hand. */
  lemma InsideAcross(v: seq<Point>, i: nat, t: real, m: Point, eps: real, s: real)
    requires Simple(v) && BoxedAt(v, i, t, m, eps) && s != 0.0 && Near(m, Shifted(m, Across(v[i], EdgeEnd(v, i)), s), eps)
    ensures StrictlyInside(v, Shifted(m, Across(v[i], EdgeEnd(v, i)), s)) == (CounterClockwise(v) == (s > 0.0))
  {
    EdgesHaveLength(v, i);
    LengthPositive(v[i], EdgeEnd(v, i));
    BoxPlace(v, i, t, m, eps);
    hide *;
    ShiftedHand(v[i], EdgeEnd(v, i), t, s);
    TimesSign(LengthSquared(v[i], EdgeEnd(v, i)), s);
    InsideByTurn(v, i, t, m, eps, Shifted(m, Across(v[i], EdgeEnd(v, i)), s));
  }

  lemma BoxPlace(v: seq<Point>, i: nat, t: real, m: Point, eps: real)
    requires BoxedAt(v, i, t, m, eps)
    ensures i < |v| && m == At(v[i], EdgeEnd(v, i), t)
  {
  }

  lemma TimesSign(x: real, s: real)
    requires x > 0.0 && s != 0.0
    ensures Times(x, s) != 0.0 && (Times(x, s) > 0.0 <==> s > 0.0)
  {
    SignOfTimes(x, s);
  }

  /** From an inner point of edge i a step along the inward normal leads strictly inside, and one against it does not. */
  predicate PointsInside(v: seq<Point>, i: nat, t: real, s: real)
    requires i < |v|
  {
    var m := At(v[i], EdgeEnd(v, i), t);
    var normal := InteriorNormal(v[i], EdgeEnd(v, i), CounterClockwise(v));
    StrictlyInside(v, Shifted(m, normal, s)) && !StrictlyInside(v, Shifted(m, normal, -s))
  }

  lemma NormalTells(v: seq<Point>, i: nat, t: real, s: real)
    requires i < |v|
    requires StrictlyInside(v, Shifted(At(v[i], EdgeEnd(v, i), t), Across(v[i], EdgeEnd(v, i)), s)) == CounterClockwise(v)
    requires StrictlyInside(v, Shifted(At(v[i], EdgeEnd(v, i), t), Across(v[i], EdgeEnd(v, i)), -s)) == !CounterClockwise(v)
    ensures PointsInside(v, i, t, s)
  {
    var m := At(v[i], EdgeEnd(v, i), t);
    NormalIsAcross(v[i], EdgeEnd(v, i), m, CounterClockwise(v), s);
    NormalIsAcross(v[i], EdgeEnd(v, i), m, CounterClockwise(v), -s);
    assert -(-s) == s;
    hide At, Across, StrictlyInside, CounterClockwise, Shifted, InteriorNormal, EdgeEnd;
  }

  lemma ShortStep(m: Point, d: Point, eps: real, far: real, s: real)
    requires 0.0 < s <= far && Times(Length(d), far) <= eps
    ensures Near(m, Shifted(m, d, s), eps) && Near(m, Shifted(m, d, -s), eps)
  {
    LengthIsPositive(d);
    hide Times, Abs, Shifted, Near;
    ShorterStep(Length(d), s, far);
    ShiftedIsNear(m, d, s, eps);
  }

  lemma StepPointsInside(v: seq<Point>, i: nat, t: real, eps: real, far: real, s: real)
    requires i < |v| && Simple(v) && BoxedAt(v, i, t, At(v[i], EdgeEnd(v, i), t), eps)
    requires 0.0 < s <= far && Times(Length(Across(v[i], EdgeEnd(v, i))), far) <= eps
    ensures PointsInside(v, i, t, s)
  {
    hide *;
    ShortStep(At(v[i], EdgeEnd(v, i), t), Across(v[i], EdgeEnd(v, i)), eps, far, s);
    InsideAcross(v, i, t, At(v[i], EdgeEnd(v, i), t), eps, s);
    InsideAcross(v, i, t, At(v[i], EdgeEnd(v, i), t), eps, -s);
    NormalTells(v, i, t, s);
  }

  /** The inward normal does point inside: short steps along it from an inner point of an edge lead strictly inside, against it they do not. */
  lemma NormalPointsInside(v: seq<Point>, i: nat, t: real) returns (far: real)
    requires Simple(v) && i < |v| && 0.0 < t < 1.0
    ensures far > 0.0 && forall s :: 0.0 < s <= far ==> PointsInside(v, i, t, s)
  {
    hide *;
    var eps := BoxFound(v, i, t);
    BoxMeaning(v, i, t, At(v[i], EdgeEnd(v, i), t), eps);
    LengthIsPositive(Across(v[i], EdgeEnd(v, i)));
    far := SmallShare(eps, Length(Across(v[i], EdgeEnd(v, i))));
    forall s | 0.0 < s <= far ensures PointsInside(v, i, t, s) {
      StepPointsInside(v, i, t, eps, far, s);
    }
  }

  lemma SmallerClear(v: seq<Point>, i: nat, t: real, m: Point, eps: real, less: real)
    requires BoxedAt(v, i, t, m, eps) && 0.0 < less <= eps
    ensures BoxedAt(v, i, t, m, less)
  {
    hide MissesBox, At;
    forall k | 0 <= k < |v| && k != i ensures MissesBox(m, less, v[k], EdgeEnd(v, k)) {
      SmallerBox(m, eps, less, v[k], EdgeEnd(v, k));
    }
  }

  /** Next to a piece of two edges with the interiors on the same side, a point is strictly inside both rings. */
  lemma SideBySideShares(v: seq<Point>, w: seq<Point>, i: nat, j: nat)
    requires Simple(v) && Simple(w) && i < |v| && j < |w| && SameSideAt(v, w, i, j)
    ensures ShareInterior(v, w)
  {
    var a, b, c, d := v[i], EdgeEnd(v, i), w[j], EdgeEnd(w, j);
    EdgesHaveLength(v, i);
    EdgesHaveLength(w, j);
    ParallelPiece(v, w, i, j);
    hide *;
    SameSideMeaning(v, w, i, j);
    var t, u := SharedInner(a, b, c, d);
    var m := At(a, b, t);
    var first := BoxFound(v, i, t);
    var second := BoxFound(w, j, u);
    var eps := LessOf(first, second);
    BoxMeaning(v, i, t, m, first);
    BoxMeaning(w, j, u, m, second);
    SmallerClear(v, i, t, m, first, eps);
    SmallerClear(w, j, u, m, second, eps);
    var z := HandInBox(a, b, t, CounterClockwise(v), eps);
    InsideByTurn(v, i, t, m, eps, z);
    InnerSharesTwo(a, b, c, d, t, u);
    HandsOfParallel(a, b, c, d, z);
    InsideByTurn(w, j, u, m, eps, z);
    SameTurnMeaning(v, w);
    BothInside(v, w, z);
  }

  lemma LessOf(x: real, y: real) returns (z: real)
    requires x > 0.0 && y > 0.0
    ensures 0.0 < z <= x && z <= y
  {
    z := Min(x, y);
  }

  lemma BoxMeaning(v: seq<Point>, i: nat, t: real, m: Point, eps: real)
    requires BoxedAt(v, i, t, m, eps)
    ensures eps > 0.0
  {
  }

  lemma SameTurnMeaning(v: seq<Point>, w: seq<Point>)
    ensures SameTurn(v, w) <==> CounterClockwise(v) == CounterClockwise(w)
  {
  }

  lemma BothInside(v: seq<Point>, w: seq<Point>, z: Point)
    requires StrictlyInside(v, z) && StrictlyInside(w, z)
    ensures ShareInterior(v, w)
  {
    hide StrictlyInside;
    assert InBoth(v, w, z);
  }

  lemma ParallelPiece(v: seq<Point>, w: seq<Point>, i: nat, j: nat)
    requires IsRing(v) && IsRing(w) && i < |v| && j < |w| && SameSideAt(v, w, i, j)
    ensures Determinant(v[i], EdgeEnd(v, i), w[j], EdgeEnd(w, j)) == 0.0
  {
    EdgesHaveLength(v, i);
    hide Determinant, Dot, InteriorNormal, Orientation, Param;
  }

  // -- a line of sight that passes no vertex

  /** The segment from z to the target passes none of the first n points. */
  ghost predicate Passing(points: seq<Point>, z: Point, q: Point, n: nat)
    requires n <= |points|
  {
    forall k :: 0 <= k < n ==> !PointOnSegment(points[k], z, q)
  }

  /** Targets between the two parameters of a-b can be aimed at without passing one of the first n points. */
  ghost predicate FreeAim(points: seq<Point>, z: Point, a: Point, b: Point, low: real, high: real, n: nat)
    requires n <= |points|
  {
    0.0 <= low < high <= 1.0 && forall t: real :: low < t < high ==> Passing(points, z, At(a, b, t), n)
  }

  lemma OnTheLineOnce(a: Point, b: Point, z: Point, p: Point, q: Point)
    requires Cross(a, b, z) != 0.0 && Cross(a, b, p) == 0.0 && Cross(a, b, q) == 0.0 && PointOnSegment(q, z, p)
    ensures q == p
  {
    OnSegmentExactly(q, z, p);
    Ends(z, p);
    hide PointOnSegment, At, Cross;
    var x: real :| 0.0 <= x <= 1.0 && At(z, p, x) == q;
    CrossAlong(a, b, z, p, x);
    assert Cross(a, b, z) * (1.0 - x) == Cross(a, b, z) + (0.0 - Cross(a, b, z)) * x;
    if x != 1.0 { NonZero(Cross(a, b, z), 1.0 - x); }
  }

  /** From off the line a point is seen before one place of the line only. */
  lemma SeenBeforeOne(a: Point, b: Point, z: Point, c: Point, t: real, u: real)
    requires a != b && Cross(a, b, z) != 0.0 && c != z
    requires PointOnSegment(c, z, At(a, b, t)) && PointOnSegment(c, z, At(a, b, u))
    ensures t == u
  {
    var p, q := At(a, b, t), At(a, b, u);
    CrossOnLine(a, b, t);
    CrossOnLine(a, b, u);
    ParamOfAt(a, b, t);
    ParamOfAt(a, b, u);
    hide PointOnSegment, At, Cross, Param;
    FromOneVertex(z, p, q, c);
    if PointOnSegment(p, z, q) { OnTheLineOnce(a, b, z, q, p); } else { OnTheLineOnce(a, b, z, p, q); }
  }

  lemma {:induction false} FreeAimFound(points: seq<Point>, z: Point, a: Point, b: Point, n: nat) returns (low: real, high: real)
    requires n <= |points| && a != b && Cross(a, b, z) != 0.0 && z !in points
    ensures FreeAim(points, z, a, b, low, high, n)
  {
    hide PointOnSegment, At, Cross;
    if n == 0 {
      low, high := 0.0, 1.0;
    } else {
      low, high := FreeAimFound(points, z, a, b, n - 1);
      var c := points[n - 1];
      assert c in points;
      ghost var whole := high;
      if t: real :| low < t < high && PointOnSegment(c, z, At(a, b, t)) {
        low := t;
        forall u: real | low < u < high ensures Passing(points, z, At(a, b, u), n) {
          assert Passing(points, z, At(a, b, u), n - 1);
          if PointOnSegment(c, z, At(a, b, u)) { SeenBeforeOne(a, b, z, c, t, u); }
        }
      } else {
        forall u: real | low < u < high ensures Passing(points, z, At(a, b, u), n) {
          assert Passing(points, z, At(a, b, u), n - 1);
        }
      }
    }
  }

  // -- an edge whose line the point is not on

  lemma {:induction false} NoFan(v: seq<Point>, z: Point, n: nat)
    requires n <= |v| && forall k :: 0 <= k < n ==> Cross(v[k], EdgeEnd(v, k), z) == 0.0
    ensures RingArea.Fan(v, z, n) == 0.0
  {
    hide Cross;
    if n > 0 { NoFan(v, z, n - 1); }
  }

  /** No point lies on the lines of all edges of a ring that encloses an area. */
  lemma OffSomeLine(v: seq<Point>, z: Point) returns (i: nat)
    requires v != [] && TwiceArea(v, |v|) != 0.0
    ensures i < |v| && Cross(v[i], EdgeEnd(v, i), z) != 0.0
  {
    hide Cross, TwiceArea;
    if forall k :: 0 <= k < |v| ==> Cross(v[k], EdgeEnd(v, k), z) == 0.0 {
      NoFan(v, z, |v|);
      RingArea.AreaFromAnywhere(v, z);
      assert false;
    }
    i :| 0 <= i < |v| && Cross(v[i], EdgeEnd(v, i), z) != 0.0;
  }

  // -- the first hit

  /** Going from z towards q, no edge is met before s. */
  ghost predicate NotBefore(v: seq<Point>, z: Point, q: Point, s: real, n: nat)
    requires n <= |v|
  {
    forall k, x: real :: 0 <= k < n && 0.0 <= x < s ==> !Shared(z, q, v[k], EdgeEnd(v, k), x)
  }

  lemma EdgeFirstHit(z: Point, q: Point, c: Point, d: Point, s: real) returns (first: real)
    requires z != q && 0.0 <= s <= 1.0
    ensures 0.0 <= first <= s && forall x :: 0.0 <= x < first ==> !Shared(z, q, c, d, x)
    ensures first == s || Shared(z, q, c, d, first)
  {
    var params := IntersectionParams(z, q, c, d);
    ParamsOrdered(z, q, c, d);
    hide IntersectionParams, Shared;
    first := if params != [] && params[0] < s then params[0] else s;
    forall x | 0.0 <= x < first ensures !Shared(z, q, c, d, x) { ParamsExactly(z, q, c, d, x); }
    if params != [] { ParamsExactly(z, q, c, d, params[0]); }
  }

  lemma {:induction false} FirstHit(v: seq<Point>, z: Point, q: Point, s: real, n: nat) returns (first: real, i: nat)
    requires z != q && 0.0 <= s <= 1.0 && n <= |v|
    ensures 0.0 <= first <= s && NotBefore(v, z, q, first, n)
    ensures first == s || (i < |v| && Shared(z, q, v[i], EdgeEnd(v, i), first))
  {
    hide Shared;
    first, i := s, 0;
    if n > 0 {
      var before;
      before, i := FirstHit(v, z, q, s, n - 1);
      first := EdgeFirstHit(z, q, v[n - 1], EdgeEnd(v, n - 1), before);
      if first != before { i := n - 1; }
    }
  }

  // -- at the first hit

  /** From z straight towards q neither ring is met before p, the point at s, and no vertex of either is on the way. */
  ghost predicate Clear(v: seq<Point>, z: Point, q: Point, s: real, p: Point) {
    0.0 <= s <= 1.0 && p == At(z, q, s) && NotBefore(v, z, q, s, |v|) && forall k :: 0 <= k < |v| ==> !PointOnSegment(v[k], z, q)
  }

  lemma BackTo(z: Point, q: Point, s: real, x: real)
    ensures At(At(z, q, s), z, x) == At(z, q, s * (1.0 - x))
  {
    Ends(z, q);
    OnLinePoints(z, q, s, 0.0, x);
    assert s + (0.0 - s) * x == s * (1.0 - x);
    hide At;
  }

  /** Walking back to z an edge is met at p only. */
  lemma MetAtHit(v: seq<Point>, z: Point, q: Point, s: real, p: Point, i: nat)
    requires Clear(v, z, q, s, p) && i < |v| && Meet(p, z, EdgeEnd(v, i), v[i])
    ensures PointOnSegment(p, v[i], EdgeEnd(v, i))
  {
    var a, b := v[i], EdgeEnd(v, i);
    hide At, PointOnSegment;
    var x: real, u: real :| 0.0 <= x <= 1.0 && 0.0 <= u <= 1.0 && At(p, z, x) == At(b, a, u);
    BackTo(z, q, s, x);
    StepBackwards(a, b, 1.0 - u);
    var y := s * (1.0 - x);
    assert Shared(z, q, a, b, y) by { assert 0.0 <= 1.0 - u <= 1.0 && At(z, q, y) == At(a, b, 1.0 - u); }
    ShareOf(s, 1.0 - x, y);
    hide Shared;
    assert y == s;
    OnSegmentExactly(p, a, b);
  }

  /** A ring not hit at p is not touched on the way, so p is inside it if z is. */
  lemma HitInside(w: seq<Point>, z: Point, q: Point, s: real, p: Point)
    requires Clear(w, z, q, s, p) && StrictlyInside(w, z) && !OnBoundary(w, p)
    ensures StrictlyInside(w, p)
  {
    hide Clear, PointOnSegment, Meet, Parity;
    forall k | 0 <= k < |w| ensures !Meet(p, z, w[k], Before(w, k)) {
      var i := LastVertexBefore(w, k);
      if Meet(p, z, w[k], Before(w, k)) { MetAtHit(w, z, q, s, p, i); }
    }
    hide OnBoundary;
    AvoidingStepStays(w, p, z);
  }

  /** The hit is an inner point of an edge. */
  lemma HitEdge(v: seq<Point>, z: Point, q: Point, s: real, p: Point) returns (i: nat, t: real)
    requires Clear(v, z, q, s, p) && OnBoundary(v, p)
    ensures i < |v| && 0.0 < t < 1.0 && At(v[i], EdgeEnd(v, i), t) == p
  {
    i, t := PointOfEdge(v, p);
    OnSegmentExactly(p, z, q);
    hide At, PointOnSegment, NotBefore;
    if t == 0.0 || t == 1.0 { var j := EndIsVertex(v, i, t, p); }
  }

  /** The way back from the hit touches that edge only. */
  lemma HitAlone(v: seq<Point>, z: Point, q: Point, s: real, p: Point, i: nat, t: real)
    requires Simple(v) && Clear(v, z, q, s, p) && i < |v| && 0.0 < t < 1.0 && At(v[i], EdgeEnd(v, i), t) == p
    ensures OnlyMeets(v, Next(|v|, i), p, z)
  {
    InnerPointsOnOneEdge(v, i, t);
    hide Simple, Clear, Meet, PointOnSegment;
    forall k | 0 <= k < |v| && k != Next(|v|, i) ensures !Meet(p, z, v[k], Before(v, k)) {
      var h := LastVertexBefore(v, k);
      if Meet(p, z, v[k], Before(v, k)) { MetAtHit(v, z, q, s, p, h); }
    }
  }

  /** It does not run along the edge: then an end of the edge would be on the way. */
  lemma HitAskew(v: seq<Point>, z: Point, q: Point, s: real, p: Point, i: nat, t: real)
    requires Simple(v) && Clear(v, z, q, s, p) && !OnBoundary(v, z) && i < |v| && 0.0 < t < 1.0 && At(v[i], EdgeEnd(v, i), t) == p
    ensures Cross(v[i], EdgeEnd(v, i), z) != 0.0
  {
    var a, b := v[i], EdgeEnd(v, i);
    EdgesHaveLength(v, i);
    hide Simple, Cross, PointOnSegment, At, NotBefore;
    if Cross(a, b, z) == 0.0 {
      CollinearAt(a, b, z);
      var y := Param(a, b, z);
      hide Param;
      OnSegmentExactly(z, a, b);
      assert y < 0.0 || y > 1.0;
      var j := EdgeEndIsVertex(v, i);
      Ends(a, b);
      if y < 0.0 { OnTheWay(a, b, y, t, 0.0, z, q, s); } else { OnTheWay(a, b, y, t, 1.0, z, q, s); }
    }
  }

  lemma OnTheWay(a: Point, b: Point, y: real, t: real, e: real, z: Point, q: Point, s: real)
    requires z == At(a, b, y) && At(z, q, s) == At(a, b, t) && 0.0 <= s <= 1.0 && (y < e < t || t < e < y)
    ensures PointOnSegment(At(a, b, e), z, q)
  {
    BetweenIsShared(a, b, y, t, e);
    var u: real :| 0.0 <= u <= 1.0 && At(a, b, e) == At(At(a, b, y), At(a, b, t), u);
    Ends(z, q);
    OnLinePoints(z, q, 0.0, s, u);
    hide At;
    var x := s * u;
    ShareOf(s, u, x);
    assert 0.0 + (s - 0.0) * u == x;
    OnSegmentExactly(At(a, b, e), z, q);
  }

  /** At the hit of a valid ring from within, z is on the hand of the edge that the ring's turn says. */
  lemma HitHand(v: seq<Point>, z: Point, q: Point, s: real, p: Point, i: nat, t: real)
    requires Simple(v) && Clear(v, z, q, s, p) && StrictlyInside(v, z) && i < |v| && 0.0 < t < 1.0 && At(v[i], EdgeEnd(v, i), t) == p
    ensures Cross(v[i], EdgeEnd(v, i), z) != 0.0 && CounterClockwise(v) == (Cross(v[i], EdgeEnd(v, i), z) > 0.0)
  {
    InsideOffBoundary(v, z);
    hide *;
    HitAskew(v, z, q, s, p, i, t);
    HitAlone(v, z, q, s, p, i, t);
    SideTold(v, i, t, z);
    InnerSideIsTurn(v, i);
  }

  /** Both rings hit at once, from within both: the edges cross, or run side by side. */
  lemma HitBoth(v: seq<Point>, w: seq<Point>, z: Point, q: Point, s: real, p: Point)
    requires Simple(v) && Simple(w) && StrictlyInside(v, z) && StrictlyInside(w, z)
    requires Clear(v, z, q, s, p) && Clear(w, z, q, s, p) && OnBoundary(v, p) && OnBoundary(w, p)
    ensures EdgesCross(v, w) || SameSide(v, w)
  {
    assert IsRing(v) && IsRing(w);
    hide *;
    var i, t := HitEdge(v, z, q, s, p);
    var j, u := HitEdge(w, z, q, s, p);
    var a, b, c, d := v[i], EdgeEnd(v, i), w[j], EdgeEnd(w, j);
    EdgesHaveLength(v, i);
    EdgesHaveLength(w, j);
    if Determinant(a, b, c, d) != 0.0 {
      InnerMeetingCrosses(v, w, i, j, t, u);
    } else {
      HitHand(v, z, q, s, p, i, t);
      HitHand(w, z, q, s, p, j, u);
      InnerSharesTwo(a, b, c, d, t, u);
      HandsOfParallel(a, b, c, d, z);
      SameTurnMeaning(v, w);
      SameSideMeaning(v, w, i, j);
      SameSideFound(v, w, i, j);
    }
  }

  lemma SameSideFound(v: seq<Point>, w: seq<Point>, i: nat, j: nat)
    requires IsRing(v) && IsRing(w) && i < |v| && j < |w| && SameSideAt(v, w, i, j)
    ensures SameSide(v, w)
  {
    hide SameSideAt, IsRing;
  }

  lemma InnerMeetingCrosses(v: seq<Point>, w: seq<Point>, i: nat, j: nat, t: real, u: real)
    requires i < |v| && j < |w| && Determinant(v[i], EdgeEnd(v, i), w[j], EdgeEnd(w, j)) != 0.0
    requires 0.0 < t < 1.0 && 0.0 < u < 1.0 && At(v[i], EdgeEnd(v, i), t) == At(w[j], EdgeEnd(w, j), u)
    ensures EdgesCross(v, w)
  {
    hide At, Determinant, ProperCross;
    ProperCrossExactly(v[i], EdgeEnd(v, i), w[j], EdgeEnd(w, j));
  }

  /** Whatever is hit first from a point inside both rings gives the decision something to find. */
  lemma HitFound(v: seq<Point>, w: seq<Point>, z: Point, q: Point, s: real, p: Point)
    requires Simple(v) && Simple(w) && StrictlyInside(v, z) && StrictlyInside(w, z)
    requires Clear(v, z, q, s, p) && Clear(w, z, q, s, p) && (OnBoundary(v, p) || OnBoundary(w, p))
    ensures EdgesCross(v, w) || SameSide(v, w) || BoundaryInside(v, w) || BoundaryInside(w, v)
  {
    hide Simple, Clear, StrictlyInside, OnBoundary, EdgesCross, SameSide;
    if OnBoundary(v, p) && OnBoundary(w, p) {
      HitBoth(v, w, z, q, s, p);
    } else if OnBoundary(v, p) {
      HitInside(w, z, q, s, p);
    } else {
      HitInside(v, z, q, s, p);
    }
  }

  lemma EdgesAreSeen(v: seq<Point>, z: Point, q: Point, s: real, i: nat)
    requires i < |v| && Shared(z, q, v[i], EdgeEnd(v, i), s)
    ensures OnBoundary(v, At(z, q, s))
  {
    OnSegmentExactly(At(z, q, s), v[i], EdgeEnd(v, i));
    hide At, PointOnSegment;
  }

  /** Looking towards a point of v's boundary, one of the rings is hit first somewhere. */
  lemma HitExists(v: seq<Point>, w: seq<Point>, z: Point, q: Point) returns (s: real)
    requires z != q && OnBoundary(v, q) && Passing(v + w, z, q, |v + w|)
    ensures Clear(v, z, q, s, At(z, q, s)) && Clear(w, z, q, s, At(z, q, s)) && (OnBoundary(v, At(z, q, s)) || OnBoundary(w, At(z, q, s)))
  {
    Ends(z, q);
    hide At, PointOnSegment, OnBoundary, Shared;
    var first, i := FirstHit(v, z, q, 1.0, |v|);
    if first != 1.0 { EdgesAreSeen(v, z, q, first, i); }
    var j;
    s, j := FirstHit(w, z, q, first, |w|);
    if s != first { EdgesAreSeen(w, z, q, s, j); }
    PassingBoth(v, w, z, q);
  }

  lemma PassingBoth(v: seq<Point>, w: seq<Point>, z: Point, q: Point)
    requires Passing(v + w, z, q, |v + w|)
    ensures forall k :: 0 <= k < |v| ==> !PointOnSegment(v[k], z, q)
    ensures forall k :: 0 <= k < |w| ==> !PointOnSegment(w[k], z, q)
  {
    hide PointOnSegment;
    forall k | 0 <= k < |v| ensures !PointOnSegment(v[k], z, q) { assert (v + w)[k] == v[k]; }
    forall k | 0 <= k < |w| ensures !PointOnSegment(w[k], z, q) { assert (v + w)[|v| + k] == w[k]; }
  }

  lemma VerticesOnBoundary(v: seq<Point>, z: Point)
    requires !OnBoundary(v, z)
    ensures z !in v
  {
    if z in v {
      var i :| 0 <= i < |v| && v[i] == z;
      EndsAreOn(v[i], EdgeEnd(v, i));
      hide PointOnSegment;
    }
  }

  /** A place on v's boundary to look at from z, past every vertex. */
  lemma AimFound(v: seq<Point>, w: seq<Point>, z: Point) returns (q: Point)
    requires IsRing(v) && TwiceArea(v, |v|) != 0.0 && z !in v + w
    ensures z != q && OnBoundary(v, q) && Passing(v + w, z, q, |v + w|)
  {
    hide IsRing, TwiceArea, Cross, At, OnBoundary, Passing;
    NotEmpty(v);
    var i := OffSomeLine(v, z);
    EdgesHaveLength(v, i);
    var low, high := FreeAimFound(v + w, z, v[i], EdgeEnd(v, i), |v + w|);
    var t := (low + high) / 2.0;
    CrossOnLine(v[i], EdgeEnd(v, i), t);
    EdgePointOnBoundary(v, i, t);
    q := At(v[i], EdgeEnd(v, i), t);
  }

  lemma NotEmpty(v: seq<Point>)
    requires IsRing(v)
    ensures v != []
  {
  }

  lemma SimpleMeaning(v: seq<Point>)
    requires Simple(v)
    ensures IsRing(v) && TwiceArea(v, |v|) != 0.0
  {
  }

  /** Nothing is missed: from a point strictly inside both rings the decision is reached. */
  lemma SharedIsFound(v: seq<Point>, w: seq<Point>)
    requires Simple(v) && Simple(w) && ShareInterior(v, w)
    ensures EdgesCross(v, w) || SameSide(v, w) || BoundaryInside(v, w) || BoundaryInside(w, v)
  {
    SimpleMeaning(v);
    SimpleMeaning(w);
    var z: Point :| InBoth(v, w, z);
    hide *;
    BothMeaning(v, w, z);
    VerticesOnBoundary(v, z);
    VerticesOnBoundary(w, z);
    var q := AimFound(v, w, z);
    var s := HitExists(v, w, z, q);
    HitFound(v, w, z, q, s, At(z, q, s));
  }

  lemma BothMeaning(v: seq<Point>, w: seq<Point>, z: Point)
    requires InBoth(v, w, z)
    ensures StrictlyInside(v, z) && StrictlyInside(w, z) && !OnBoundary(v, z) && !OnBoundary(w, z)
  {
    hide OnBoundary, Parity;
  }

  // -- the decision

  lemma DecisionShares(v: seq<Point>, w: seq<Point>)
    requires Simple(v) && Simple(w) && (BoundaryInside(v, w) || BoundaryInside(w, v) || SameSide(v, w))
    ensures ShareInterior(v, w)
  {
    SimpleMeaning(v);
    SimpleMeaning(w);
    hide Simple, BoundaryInside, ShareInterior, SameSideAt, IsRing;
    if BoundaryInside(v, w) {
      BoundaryShares(v, w);
    } else if BoundaryInside(w, v) {
      BoundaryShares(w, v);
      SharedSwaps(w, v);
    } else {
      var i, j :| 0 <= i < |v| && 0 <= j < |w| && SameSideAt(v, w, i, j);
      SideBySideShares(v, w, i, j);
    }
  }

  /** The overlap decision holds exactly if the two valid rings share interior area. */
  lemma OverlapExactlyShared(v: seq<Point>, w: seq<Point>)
    requires Simple(v) && Simple(w)
    ensures InteriorsOverlap(v, w) <==> ShareArea(v, w)
  {
    hide *;
    SimpleMeaning(v);
    SimpleMeaning(w);
    DecisionExactly(v, w);
    if InteriorsOverlap(v, w) {
      DecisionShares(v, w);
      PointGivesArea(v, w);
    }
    if ShareArea(v, w) {
      AreaHasPoints(v, w);
      SharedIsFound(v, w);
      if EdgesCross(v, w) { CrossingFound(v, w); }
    }
  }
}
