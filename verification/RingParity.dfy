/** What odd parity means: it flips at every crossed edge, nowhere else, and is false far away. */
module RingParity {
  import opened ClearanceRoots
  import opened Segments
  import opened SegmentMeetings
  import opened Rings

  // -- one edge and one ray

  /** The ray to the right of p crosses the edge: p is at its height, left of it when it is walked upwards. */
  predicate Crossing(a: Point, b: Point, p: Point) {
    if a.y <= p.y < b.y then Cross(a, b, p) > 0.0
    else if b.y <= p.y < a.y then Cross(b, a, p) > 0.0
    else false
  }

  lemma CrossSwaps(a: Point, b: Point, p: Point)
    ensures Cross(b, a, p) == -Cross(a, b, p)
  {
    var x, y, dx, dy := p.x - a.x, p.y - a.y, b.x - a.x, b.y - a.y;
    assert (-dx) * (y - dy) == -(dx * y) + dx * dy && (-dy) * (x - dx) == -(dy * x) + dx * dy;
  }

  /** Comparing with a quotient without dividing. */
  lemma BelowQuotient(d: real, n: real, h: real)
    ensures h > 0.0 ==> (d < n / h <==> n - h * d > 0.0)
    ensures h < 0.0 ==> (d < n / h <==> n - h * d < 0.0)
  {
    if h != 0.0 {
      var e := n / h - d;
      QuotientTimes(h, n);
      assert h * e == n - h * d by { assert h * e == h * (n / h) - h * d; }
      SignOfProduct(h, e);
    }
  }

  lemma RayCrossesIsCrossing(current: Point, previous: Point, p: Point)
    ensures RayCrosses(current, previous, p) == Crossing(current, previous, p)
  {
    var h, n := previous.y - current.y, (previous.x - current.x) * (p.y - current.y);
    BelowQuotient(p.x - current.x, n, h);
    assert Cross(current, previous, p) == n - h * (p.x - current.x);
    CrossSwaps(current, previous, p);
    hide Cross;
  }

  // -- one edge and one step from p to q

  function Times(x: real, y: real): real { x * y }

  /** The sign of a product follows the signs of its factors. */
  predicate SignRule(x: real, y: real) {
    && (x > 0.0 && y > 0.0 ==> Times(x, y) > 0.0) && (x < 0.0 && y < 0.0 ==> Times(x, y) > 0.0)
    && (x > 0.0 && y < 0.0 ==> Times(x, y) < 0.0) && (x < 0.0 && y > 0.0 ==> Times(x, y) < 0.0)
    && (x == 0.0 || y == 0.0 ==> Times(x, y) == 0.0)
  }

  lemma SignOfTimes(x: real, y: real)
    ensures SignRule(x, y)
  {
    SignOfProduct(x, y);
  }

  /** Four areas: of a and b over p-q, and of p and q over a-b. */
  datatype Areas = Areas(a: real, b: real, p: real, q: real)

  /** The heights of the four points. */
  datatype Heights = Heights(a: real, b: real, p: real, q: real)

  function AreasOf(p: Point, q: Point, a: Point, b: Point): Areas {
    Areas(Cross(p, q, a), Cross(p, q, b), Cross(a, b, p), Cross(a, b, q))
  }

  function HeightsOf(p: Point, q: Point, a: Point, b: Point): Heights { Heights(a.y, b.y, p.y, q.y) }

  /** The areas weigh the heights out, measured from any level. */
  predicate Balance(s: Areas, h: Heights, level: real) {
    Times(s.q, h.p - level) - Times(s.p, h.q - level) + Times(s.b, h.a - level) - Times(s.a, h.b - level) == 0.0
  }

  predicate SignRules(s: Areas, h: Heights, level: real) {
    SignRule(s.q, h.p - level) && SignRule(s.p, h.q - level) && SignRule(s.b, h.a - level) && SignRule(s.a, h.b - level)
  }

  /** The balance holds at every level: the only affine dependency between four points of the plane. */
  lemma Balanced(p: Point, q: Point, a: Point, b: Point, level: real)
    ensures Balance(AreasOf(p, q, a, b), HeightsOf(p, q, a, b), level)
    ensures SignRules(AreasOf(p, q, a, b), HeightsOf(p, q, a, b), level)
  {
    var s, h := AreasOf(p, q, a, b), HeightsOf(p, q, a, b);
    AreasBalance(p, q, a, b, level);
    hide AreasOf, Balance, SignRule;
    SignOfTimes(s.q, h.p - level);
    SignOfTimes(s.p, h.q - level);
    SignOfTimes(s.b, h.a - level);
    SignOfTimes(s.a, h.b - level);
  }

  lemma AreasBalance(p: Point, q: Point, a: Point, b: Point, level: real)
    ensures Balance(AreasOf(p, q, a, b), HeightsOf(p, q, a, b), level)
  {
    FourPoints(p.x - a.x, p.y - a.y, q.x - a.x, q.y - a.y, b.x - a.x, b.y - a.y, a.y - level);
    AreasFrom(p, q, a, b);
    hide AreasOf;
  }

  lemma AreasFrom(p: Point, q: Point, a: Point, b: Point)
    ensures var px, py, qx, qy, bx, h := p.x - a.x, p.y - a.y, q.x - a.x, q.y - a.y, b.x - a.x, b.y - a.y;
            AreasOf(p, q, a, b) == Areas(px * qy - py * qx, (qx - px) * (h - py) - (qy - py) * (bx - px), bx * py - h * px, bx * qy - h * qx)
  {
    var px, py, qx, qy := p.x - a.x, p.y - a.y, q.x - a.x, q.y - a.y;
    assert (qx - px) * (-py) - (qy - py) * (-px) == px * qy - py * qx;
  }

  lemma FourPoints(px: real, py: real, qx: real, qy: real, bx: real, h: real, level: real)
    ensures (bx * qy - h * qx) * (py + level) - (bx * py - h * px) * (qy + level)
          + ((qx - px) * (h - py) - (qy - py) * (bx - px)) * level - (px * qy - py * qx) * (h + level) == 0.0
  {
  }

  /** Right of the step from p up to q, and between its heights. */
  predicate Beyond(p: Point, q: Point, c: Point) { p.y < c.y <= q.y && Cross(p, q, c) < 0.0 }

  /** The ray changes its mind about the edge, not counting ends of the edge that the step sweeps over. */
  predicate Flips(p: Point, q: Point, a: Point, b: Point) {
    (Crossing(a, b, p) != Crossing(a, b, q)) != (Beyond(p, q, a) != Beyond(p, q, b))
  }

  lemma LowToMiddle(s: Areas, h: Heights)
    requires h.a <= h.p < h.b <= h.q
    requires Balance(s, h, h.p) && SignRules(s, h, h.p) && Balance(s, h, h.b) && SignRules(s, h, h.b)
    ensures s.p > 0.0 && s.b >= 0.0 ==> s.a < 0.0 && s.q <= 0.0
    ensures s.p <= 0.0 && s.b < 0.0 ==> s.a >= 0.0 && s.q > 0.0
  {
    hide Times;
  }

  lemma MiddleToHigh(s: Areas, h: Heights)
    requires h.p < h.a <= h.q < h.b
    requires Balance(s, h, h.q) && SignRules(s, h, h.q) && Balance(s, h, h.a) && SignRules(s, h, h.a)
    ensures s.q > 0.0 && s.a >= 0.0 ==> s.b < 0.0 && s.p < 0.0
    ensures s.q <= 0.0 && s.a < 0.0 ==> s.b > 0.0 && s.p > 0.0
  {
    hide Times;
  }

  lemma LowToHigh(s: Areas, h: Heights)
    requires h.a <= h.p <= h.q < h.b
    requires Balance(s, h, h.a) && SignRules(s, h, h.a) && Balance(s, h, h.b) && SignRules(s, h, h.b)
    ensures s.p > 0.0 && s.q <= 0.0 ==> s.a <= 0.0 && s.b > 0.0
    ensures s.p <= 0.0 && s.q > 0.0 ==> s.a >= 0.0 && s.b < 0.0
  {
    hide Times;
  }

  lemma MiddleToMiddle(s: Areas, h: Heights)
    requires h.p < h.a <= h.b <= h.q
    requires Balance(s, h, h.p) && SignRules(s, h, h.p) && Balance(s, h, h.q) && SignRules(s, h, h.q)
    ensures s.a < 0.0 && s.b >= 0.0 ==> s.p > 0.0 && s.q <= 0.0
    ensures s.a >= 0.0 && s.b < 0.0 ==> s.p < 0.0 && s.q >= 0.0
  {
    hide Times;
  }

  /** An edge below or above the whole step does not cross it properly. */
  lemma ApartInHeight(s: Areas, h: Heights)
    requires h.a <= h.b && h.p <= h.q
    requires Balance(s, h, h.p) && SignRules(s, h, h.p) && Balance(s, h, h.q) && SignRules(s, h, h.q)
    requires (s.a < 0.0 && s.b > 0.0 && s.p > 0.0 && s.q < 0.0) || (s.a > 0.0 && s.b < 0.0 && s.p < 0.0 && s.q > 0.0)
    ensures h.b > h.p || (h.a == h.p && h.b == h.p && h.q == h.p)
    ensures h.a <= h.q
  {
    hide Times;
  }

  lemma LevelPointsAreCollinear(p: Point, q: Point, a: Point)
    requires q.y == p.y && a.y == p.y
    ensures Cross(p, q, a) == 0.0
  {
  }

  lemma CrossedSign(p: Point, q: Point, a: Point, b: Point)
    requires ProperCross(p, q, a, b)
    ensures var s := AreasOf(p, q, a, b);
            (s.a < 0.0 && s.b > 0.0 && s.p > 0.0 && s.q < 0.0) || (s.a > 0.0 && s.b < 0.0 && s.p < 0.0 && s.q > 0.0)
  {
    CrossRates(p, q, a, b);
    hide Cross;
  }

  lemma FlipStraddles(p: Point, q: Point, a: Point, b: Point)
    requires p.y <= q.y && a.y <= b.y && Flips(p, q, a, b)
    ensures Orientation(p, q, a) != Orientation(p, q, b) && Orientation(a, b, p) != Orientation(a, b, q)
  {
    var s, h := AreasOf(p, q, a, b), HeightsOf(p, q, a, b);
    Balanced(p, q, a, b, p.y);
    Balanced(p, q, a, b, q.y);
    Balanced(p, q, a, b, a.y);
    Balanced(p, q, a, b, b.y);
    hide Cross, Balance, SignRules;
    if a.y <= p.y < b.y <= q.y {
      LowToMiddle(s, h);
    } else if p.y < a.y <= q.y < b.y {
      MiddleToHigh(s, h);
    } else if a.y <= p.y && q.y < b.y {
      LowToHigh(s, h);
    } else if p.y < a.y && b.y <= q.y {
      MiddleToMiddle(s, h);
    }
  }

  lemma ProperCrossFlips(p: Point, q: Point, a: Point, b: Point)
    requires p.y <= q.y && a.y <= b.y && ProperCross(p, q, a, b)
    ensures Flips(p, q, a, b)
  {
    Balanced(p, q, a, b, p.y);
    Balanced(p, q, a, b, q.y);
    CrossedSign(p, q, a, b);
    if q.y == p.y && a.y == p.y { LevelPointsAreCollinear(p, q, a); }
    hide Cross, Balance, SignRules, ProperCross;
    ApartInHeight(AreasOf(p, q, a, b), HeightsOf(p, q, a, b));
  }

  lemma OrientationSwaps(a: Point, b: Point, p: Point)
    ensures Orientation(b, a, p) == -Orientation(a, b, p)
  {
    CrossSwaps(a, b, p);
    hide Cross;
  }

  /** An edge that the step does not touch never flips; one that it crosses properly always does. */
  lemma EdgeFlips(p: Point, q: Point, a: Point, b: Point)
    requires p.y <= q.y
    ensures Flips(p, q, a, b) ==> Meet(p, q, a, b)
    ensures ProperCross(p, q, a, b) ==> Flips(p, q, a, b)
  {
    OrientationSwaps(a, b, p);
    OrientationSwaps(a, b, q);
    hide Orientation;
    if Flips(p, q, a, b) {
      if a.y <= b.y { FlipStraddles(p, q, a, b); } else { FlipStraddles(p, q, b, a); }
      IntersectExactly(p, q, a, b);
    }
    if ProperCross(p, q, a, b) {
      if a.y <= b.y { ProperCrossFlips(p, q, a, b); } else { ProperCrossFlips(p, q, b, a); }
    }
  }

  // -- the whole ring and one step

  /** The vertex before vertex i around the ring. */
  function Before(v: seq<Point>, i: nat): Point
    requires i < |v|
  {
    if i == 0 then v[|v| - 1] else v[i - 1]
  }

  /** Edge i, into vertex i, is crossed properly by the step or not touched at all. */
  ghost predicate CrossedOrMissed(v: seq<Point>, p: Point, q: Point, i: nat)
    requires i < |v|
  {
    ProperCross(p, q, v[i], Before(v, i)) || !Meet(p, q, v[i], Before(v, i))
  }

  ghost predicate Generic(v: seq<Point>, p: Point, q: Point) { forall i :: 0 <= i < |v| ==> CrossedOrMissed(v, p, q, i) }

  /** How many of the first n edges the step crosses. */
  function Crossings(v: seq<Point>, p: Point, q: Point, n: nat): nat
    requires n <= |v|
  {
    if n == 0 then 0 else Crossings(v, p, q, n - 1) + (if ProperCross(p, q, v[n - 1], Before(v, n - 1)) then 1 else 0)
  }

  /** An edge not touched or crossed properly: how the rays before and after the step see it. */
  lemma RayTurns(p: Point, q: Point, a: Point, b: Point)
    requires p.y <= q.y && (ProperCross(p, q, a, b) || !Meet(p, q, a, b))
    ensures (RayCrosses(a, b, p) != RayCrosses(a, b, q)) == ((Beyond(p, q, a) != Beyond(p, q, b)) != ProperCross(p, q, a, b))
  {
    EdgeFlips(p, q, a, b);
    RayCrossesIsCrossing(a, b, p);
    RayCrossesIsCrossing(a, b, q);
    hide RayCrosses, Crossing, Beyond, ProperCross, Meet;
  }

  /** Around the ring the swept vertices cancel out, so only crossed edges change the parity. */
  lemma {:induction false} SweptVerticesCancel(v: seq<Point>, p: Point, q: Point, n: nat)
    requires 1 <= n <= |v| && p.y <= q.y && Generic(v, p, q)
    ensures (Parity(v, p, n) != Parity(v, q, n))
         == ((Beyond(p, q, v[|v| - 1]) != Beyond(p, q, v[n - 1])) != (Crossings(v, p, q, n) % 2 == 1))
  {
    hide RayCrosses, Beyond, ProperCross, Meet;
    assert CrossedOrMissed(v, p, q, n - 1);
    RayTurns(p, q, v[n - 1], Before(v, n - 1));
    if n > 1 { SweptVerticesCancel(v, p, q, n - 1); }
    LastRay(v, p, n);
    LastRay(v, q, n);
    hide Parity, Generic;
  }

  lemma LastRay(v: seq<Point>, p: Point, n: nat)
    requires 1 <= n <= |v|
    ensures Parity(v, p, n) == (Parity(v, p, n - 1) != RayCrosses(v[n - 1], Before(v, n - 1), p))
    ensures !Parity(v, p, 0)
  {
    hide RayCrosses;
  }

  lemma StepBackwards(p: Point, q: Point, t: real)
    ensures At(q, p, 1.0 - t) == At(p, q, t)
  {
  }

  lemma MeetBackwards(p: Point, q: Point, a: Point, b: Point)
    requires Meet(q, p, a, b)
    ensures Meet(p, q, a, b)
  {
    var t: real, u: real :| 0.0 <= t <= 1.0 && 0.0 <= u <= 1.0 && At(q, p, t) == At(a, b, u);
    StepBackwards(p, q, 1.0 - t);
    hide At;
    MeetAt(p, q, a, b, 1.0 - t, u);
  }

  lemma CrossBackwards(p: Point, q: Point, a: Point, b: Point)
    ensures ProperCross(q, p, a, b) == ProperCross(p, q, a, b)
  {
    OrientationSwaps(p, q, a);
    OrientationSwaps(p, q, b);
    hide Orientation;
  }

  lemma GenericBackwards(v: seq<Point>, p: Point, q: Point)
    requires Generic(v, p, q)
    ensures Generic(v, q, p)
  {
    forall i | 0 <= i < |v| ensures CrossedOrMissed(v, q, p, i) {
      assert CrossedOrMissed(v, p, q, i);
      CrossBackwards(p, q, v[i], Before(v, i));
      if Meet(q, p, v[i], Before(v, i)) { MeetBackwards(p, q, v[i], Before(v, i)); }
      hide ProperCross, Meet;
    }
  }

  lemma {:induction false} CrossingsBackwards(v: seq<Point>, p: Point, q: Point, n: nat)
    requires n <= |v|
    ensures Crossings(v, q, p, n) == Crossings(v, p, q, n)
  {
    hide ProperCross;
    if n > 0 {
      CrossBackwards(p, q, v[n - 1], Before(v, n - 1));
      CrossingsBackwards(v, p, q, n - 1);
    }
  }

  /** A step in any direction that touches no vertex changes the parity exactly when it crosses an odd number of edges. */
  lemma CrossingsFlipParity(v: seq<Point>, p: Point, q: Point)
    requires v != [] && Generic(v, p, q)
    ensures Parity(v, p, |v|) != Parity(v, q, |v|) <==> Crossings(v, p, q, |v|) % 2 == 1
  {
    hide Parity, Beyond, Generic;
    if p.y <= q.y {
      SweptVerticesCancel(v, p, q, |v|);
    } else {
      GenericBackwards(v, p, q);
      SweptVerticesCancel(v, q, p, |v|);
      CrossingsBackwards(v, p, q, |v|);
    }
  }

  // -- inside and outside

  /** The step touches no edge. */
  ghost predicate Avoids(v: seq<Point>, p: Point, q: Point) { forall i :: 0 <= i < |v| ==> !Meet(p, q, v[i], Before(v, i)) }

  lemma {:induction false} NothingCrossed(v: seq<Point>, p: Point, q: Point, n: nat)
    requires n <= |v| && Avoids(v, p, q)
    ensures Crossings(v, p, q, n) == 0
  {
    if n > 0 {
      ProperCrossMeets(p, q, v[n - 1], Before(v, n - 1));
      hide ProperCross, Meet;
      NothingCrossed(v, p, q, n - 1);
    }
  }

  lemma ProperCrossMeets(p: Point, q: Point, a: Point, b: Point)
    ensures ProperCross(p, q, a, b) ==> Meet(p, q, a, b)
  {
    IntersectExactly(p, q, a, b);
    hide Orientation;
  }

  lemma AvoidingLeavesBoundary(v: seq<Point>, p: Point, q: Point)
    requires Avoids(v, p, q)
    ensures !OnBoundary(v, p) && !OnBoundary(v, q)
  {
    forall i | 0 <= i < |v| ensures !PointOnSegment(p, v[i], EdgeEnd(v, i)) && !PointOnSegment(q, v[i], EdgeEnd(v, i)) {
      var k := if i + 1 < |v| then i + 1 else 0;
      assert v[k] == EdgeEnd(v, i) && Before(v, k) == v[i];
      Ends(p, q);
      OnSegmentExactly(p, v[i], v[k]);
      OnSegmentExactly(q, v[i], v[k]);
      hide PointOnSegment, At;
      if t: real :| 0.0 <= t <= 1.0 && At(v[i], v[k], t) == p { EdgeMeets(v[i], v[k], p, q, t, 0.0); }
      if t: real :| 0.0 <= t <= 1.0 && At(v[i], v[k], t) == q { EdgeMeets(v[i], v[k], p, q, t, 1.0); }
    }
  }

  lemma EdgeMeets(a: Point, b: Point, p: Point, q: Point, t: real, u: real)
    requires 0.0 <= t <= 1.0 && 0.0 <= u <= 1.0 && At(a, b, t) == At(p, q, u)
    ensures Meet(p, q, b, a)
  {
    StepBackwards(a, b, t);
    hide At;
    MeetAt(p, q, b, a, u, 1.0 - t);
  }

  lemma AvoidingStepStays(v: seq<Point>, p: Point, q: Point)
    requires Avoids(v, p, q)
    ensures StrictlyInside(v, p) == StrictlyInside(v, q)
  {
    AvoidingLeavesBoundary(v, p, q);
    if v != [] {
      NothingCrossed(v, p, q, |v|);
      assert Generic(v, p, q) by { hide ProperCross, Meet; }
      hide Parity, Generic, Crossings, Meet, OnBoundary;
      CrossingsFlipParity(v, p, q);
    }
  }

  /** No leg of the path touches an edge. */
  ghost predicate PathAvoids(v: seq<Point>, path: seq<Point>) { forall i :: 0 <= i < |path| - 1 ==> Avoids(v, path[i], path[i + 1]) }

  /** Inside and outside are not connected: along a path that never touches the ring the verdict stays. */
  lemma {:induction false} PathStays(v: seq<Point>, path: seq<Point>)
    requires path != [] && PathAvoids(v, path)
    ensures StrictlyInside(v, path[0]) == StrictlyInside(v, path[|path| - 1])
  {
    hide StrictlyInside, Avoids;
    if |path| > 1 {
      var front := path[..|path| - 1];
      PathStays(v, front);
      AvoidingStepStays(v, path[|path| - 2], path[|path| - 1]);
    }
  }

  /** Strictly above, below, left or right of every vertex. */
  ghost predicate Beside(v: seq<Point>, p: Point) {
    || (forall i :: 0 <= i < |v| ==> v[i].y > p.y) || (forall i :: 0 <= i < |v| ==> v[i].y < p.y)
    || (forall i :: 0 <= i < |v| ==> v[i].x > p.x) || (forall i :: 0 <= i < |v| ==> v[i].x < p.x)
  }

  lemma {:induction false} NothingAtHeight(v: seq<Point>, p: Point, n: nat)
    requires n <= |v|
    requires (forall i :: 0 <= i < |v| ==> v[i].y > p.y) || (forall i :: 0 <= i < |v| ==> v[i].y < p.y)
    ensures !Parity(v, p, n)
  {
    if n > 0 { NothingAtHeight(v, p, n - 1); }
  }

  lemma SidewaysApart(p: Point, height: real, a: Point, b: Point)
    requires (a.x > p.x && b.x > p.x) || (a.x < p.x && b.x < p.x)
    ensures !Meet(p, Point(p.x, height), a, b)
  {
    forall t: real, u: real | 0.0 <= t <= 1.0 && 0.0 <= u <= 1.0 ensures At(p, Point(p.x, height), t) != At(a, b, u) {
      UprightStep(p, height, t);
      EdgeStaysAside(p.x, a, b, u);
      hide At;
    }
  }

  lemma UprightStep(p: Point, height: real, t: real)
    ensures At(p, Point(p.x, height), t).x == p.x
  {
    assert 0.0 * t == 0.0;
  }

  lemma EdgeStaysAside(x: real, a: Point, b: Point, u: real)
    requires 0.0 <= u <= 1.0 && ((a.x > x && b.x > x) || (a.x < x && b.x < x))
    ensures At(a, b, u).x != x
  {
    BetweenCoordinates(a.x, b.x, u);
    var way := a.x + (b.x - a.x) * u;
    assert At(a, b, u).x == way;
    hide At;
  }

  lemma {:induction false} HeightAbove(v: seq<Point>, n: nat) returns (height: real)
    requires n <= |v|
    ensures forall i :: 0 <= i < n ==> v[i].y < height
  {
    if n == 0 {
      height := 0.0;
    } else {
      height := HeightAbove(v, n - 1);
      height := Max(height, v[n - 1].y + 1.0);
    }
  }

  lemma FarIsOutside(v: seq<Point>, p: Point)
    requires Beside(v, p)
    ensures !StrictlyInside(v, p)
  {
    if (forall i :: 0 <= i < |v| ==> v[i].y > p.y) || (forall i :: 0 <= i < |v| ==> v[i].y < p.y) {
      NothingAtHeight(v, p, |v|);
    } else {
      var height := HeightAbove(v, |v|);
      var above := Point(p.x, height);
      NothingAtHeight(v, above, |v|);
      forall i | 0 <= i < |v| ensures !Meet(p, above, v[i], Before(v, i)) { SidewaysApart(p, height, v[i], Before(v, i)); }
      hide Meet;
      AvoidingStepStays(v, p, above);
    }
  }

  /** The ring encloses what it strictly contains: every path from there to a point beside the ring touches an edge. */
  lemma InsideIsEnclosed(v: seq<Point>, path: seq<Point>)
    requires path != [] && StrictlyInside(v, path[0]) && Beside(v, path[|path| - 1])
    ensures !PathAvoids(v, path)
  {
    hide StrictlyInside, Beside;
    FarIsOutside(v, path[|path| - 1]);
    if PathAvoids(v, path) { PathStays(v, path); }
  }

  /** Off the boundary, inside means an odd number of crossings on the way to any point beside the ring, in any direction. */
  lemma InsideMeansOddCrossings(v: seq<Point>, p: Point, far: Point)
    requires v != [] && Beside(v, far) && Generic(v, p, far) && !OnBoundary(v, p)
    ensures StrictlyInside(v, p) <==> Crossings(v, p, far, |v|) % 2 == 1
  {
    BesideIsOffBoundary(v, far);
    FarIsOutside(v, far);
    CrossingsFlipParity(v, p, far);
    hide Parity, Generic, Crossings, OnBoundary, Beside;
  }

  lemma BesideIsOffBoundary(v: seq<Point>, p: Point)
    requires Beside(v, p)
    ensures !OnBoundary(v, p)
  {
    forall i | 0 <= i < |v| ensures !PointOnSegment(p, v[i], EdgeEnd(v, i)) {
      var k := if i + 1 < |v| then i + 1 else 0;
      assert v[k] == EdgeEnd(v, i);
      OutOfBox(p, v[i], v[k]);
    }
  }

  lemma OutOfBox(p: Point, a: Point, b: Point)
    requires (a.x > p.x && b.x > p.x) || (a.x < p.x && b.x < p.x) || (a.y > p.y && b.y > p.y) || (a.y < p.y && b.y < p.y)
    ensures !PointOnSegment(p, a, b)
  {
    hide Orientation;
  }
}
