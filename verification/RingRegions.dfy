/** A valid ring divides the plane in two: points off it are linked by a path that touches no edge exactly if the test tells them alike. */
module RingRegions {
  import opened ClearanceRoots
  import opened Segments
  import opened SegmentMeetings
  import opened Rings
  import opened RingParity
  import opened RingOverlap
  import opened RingDecision
  import opened RingSides
  import opened RingCorners
  import opened RingSharing

  // -- paths

  /** The path leads from p to q and touches no edge. */
  ghost predicate Leads(v: seq<Point>, path: seq<Point>, p: Point, q: Point) {
    path != [] && path[0] == p && path[|path| - 1] == q && PathAvoids(v, path)
  }

  ghost predicate Linked(v: seq<Point>, p: Point, q: Point) { exists path: seq<Point> :: Leads(v, path, p, q) }

  lemma LinkedStep(v: seq<Point>, p: Point, q: Point)
    requires Avoids(v, p, q)
    ensures Linked(v, p, q)
  {
    hide Avoids;
    assert Leads(v, [p, q], p, q);
  }

  lemma LinkedVia(v: seq<Point>, p: Point, q: Point, r: Point)
    requires Linked(v, p, q) && Linked(v, q, r)
    ensures Linked(v, p, r)
  {
    hide Avoids;
    var first: seq<Point> :| Leads(v, first, p, q);
    var second: seq<Point> :| Leads(v, second, q, r);
    var path := first + second[1..];
    forall i | 0 <= i < |path| - 1 ensures Avoids(v, path[i], path[i + 1]) {
      if i < |first| - 1 {
        assert path[i] == first[i] && path[i + 1] == first[i + 1];
      } else {
        var k := i - (|first| - 1);
        assert path[i] == second[k] && path[i + 1] == second[k + 1];
      }
    }
    assert Leads(v, path, p, r);
  }

  lemma AvoidsBackwards(v: seq<Point>, p: Point, q: Point)
    requires Avoids(v, p, q)
    ensures Avoids(v, q, p)
  {
    forall i | 0 <= i < |v| ensures !Meet(q, p, v[i], Before(v, i)) {
      if Meet(q, p, v[i], Before(v, i)) { MeetBackwards(p, q, v[i], Before(v, i)); }
    }
    hide Meet;
  }

  // -- launched from an edge

  /** The step from an inner point of edge i touches that edge only, and leaves it. */
  ghost predicate Launched(v: seq<Point>, i: nat, t: real, z: Point) {
    i < |v| && 0.0 < t < 1.0 && OnlyMeets(v, Next(|v|, i), At(v[i], EdgeEnd(v, i), t), z) && Cross(v[i], EdgeEnd(v, i), z) != 0.0
  }

  /** The point lies on this hand of edge i. */
  predicate OnHand(v: seq<Point>, i: nat, left: bool, z: Point)
    requires i < |v|
  {
    Cross(v[i], EdgeEnd(v, i), z) != 0.0 && (Cross(v[i], EdgeEnd(v, i), z) > 0.0) == left
  }

  /** The hand it is launched to tells whether a point is inside. */
  lemma LaunchedTold(v: seq<Point>, i: nat, t: real, z: Point)
    requires Simple(v) && Launched(v, i, t, z)
    ensures OnHand(v, i, LeftIn(v, i) == StrictlyInside(v, z), z)
  {
    hide Simple, OnlyMeets, LeftIn, StrictlyInside, Cross, At;
    SideTold(v, i, t, z);
  }


  /** A step that stays on one hand of edge i and meets no other edge avoids the ring. */
  lemma OnHandAvoids(v: seq<Point>, i: nat, left: bool, p: Point, q: Point)
    requires i < |v| && OnHand(v, i, left, p) && OnHand(v, i, left, q) && OnlyMeets(v, Next(|v|, i), p, q)
    ensures Avoids(v, p, q)
  {
    var e := Next(|v|, i);
    hide Cross, Meet;
    IntoNext(v, i);
    OnOneSide(v[i], EdgeEnd(v, i), p, q);
    if Meet(p, q, v[e], Before(v, e)) { MeetReversed(p, q, v[i], v[e]); }
  }

  lemma PartOfStep(p: Point, z: Point, x: real, c: Point, d: Point)
    requires 0.0 < x < 1.0 && Meet(At(p, z, x), z, c, d)
    ensures Meet(p, z, c, d)
  {
    hide At;
    var s: real, u: real :| 0.0 <= s <= 1.0 && 0.0 <= u <= 1.0 && At(At(p, z, x), z, s) == At(c, d, u);
    Ends(p, z);
    OnLinePoints(p, z, x, 1.0, s);
    var y := (1.0 - x) * s;
    ShareOf(1.0 - x, s, y);
    assert 0.0 <= x + y <= 1.0;
    MeetAt(p, z, c, d, x + y, u);
  }

  lemma PartOnly(v: seq<Point>, e: nat, p: Point, z: Point, x: real)
    requires 0.0 < x < 1.0 && OnlyMeets(v, e, p, z)
    ensures OnlyMeets(v, e, At(p, z, x), z)
  {
    forall k | 0 <= k < |v| && k != e ensures !Meet(At(p, z, x), z, v[k], Before(v, k)) {
      if Meet(At(p, z, x), z, v[k], Before(v, k)) { PartOfStep(p, z, x, v[k], Before(v, k)); }
    }
    hide Meet;
  }

  lemma PartOnHand(v: seq<Point>, i: nat, left: bool, t: real, z: Point, x: real)
    requires i < |v| && OnHand(v, i, left, z) && 0.0 < x < 1.0
    ensures OnHand(v, i, left, At(At(v[i], EdgeEnd(v, i), t), z, x))
  {
    CrossOnLine(v[i], EdgeEnd(v, i), t);
    hide Cross, At;
    PartOfArea(v[i], EdgeEnd(v, i), At(v[i], EdgeEnd(v, i), t), z, x);
    SignOfTimes(Cross(v[i], EdgeEnd(v, i), z), x);
  }

  lemma InBoxOnly(v: seq<Point>, i: nat, m: Point, eps: real, p: Point, q: Point)
    requires i < |v| && ClearOf(v, m, eps, |v|, {i}) && Near(m, p, eps) && Near(m, q, eps)
    ensures OnlyMeets(v, Next(|v|, i), p, q)
  {
    assert {i, i} == {i};
    MeetsOwnOnly(v, i, i, m, eps, p, q);
    hide OnlyMeets;
  }

  /** Points close by on the way to either of two points launched from one place. */
  lemma NearLaunch(v: seq<Point>, i: nat, t: real, y: Point, z: Point) returns (eps: real, x: real)
    requires Simple(v) && i < |v| && 0.0 < t < 1.0
    ensures var m := At(v[i], EdgeEnd(v, i), t);
            0.0 < x < 1.0 && ClearOf(v, m, eps, |v|, {i}) && Near(m, At(m, y, x), eps) && Near(m, At(m, z, x), eps)
  {
    hide Simple, At, ClearOf, Near, Direction, Shifted;
    var m := At(v[i], EdgeEnd(v, i), t);
    eps := BoxFound(v, i, t);
    x := SmallSteps(m, Direction(m, y), Direction(m, z), Direction(m, z), eps);
    StepIs(m, y, x);
    StepIs(m, z, x);
  }

  /** Points launched from one place to one hand are linked. */
  lemma LaunchesLink(v: seq<Point>, i: nat, left: bool, t: real, y: Point, z: Point)
    requires Simple(v) && Launched(v, i, t, y) && Launched(v, i, t, z) && OnHand(v, i, left, y) && OnHand(v, i, left, z)
    ensures Linked(v, y, z)
  {
    LaunchMeaning(v, i, t, y);
    LaunchMeaning(v, i, t, z);
    hide *;
    var e, m := Next(|v|, i), At(v[i], EdgeEnd(v, i), t);
    var eps, x := NearLaunch(v, i, t, y, z);
    var p, q := At(m, y, x), At(m, z, x);
    PartOnHand(v, i, left, t, y, x);
    PartOnHand(v, i, left, t, z, x);
    PartOnly(v, e, m, y, x);
    PartOnly(v, e, m, z, x);
    InBoxOnly(v, i, m, eps, p, q);
    OnHandAvoids(v, i, left, p, y);
    OnHandAvoids(v, i, left, p, q);
    OnHandAvoids(v, i, left, q, z);
    AvoidsBackwards(v, p, y);
    LinkedStep(v, y, p);
    LinkedStep(v, p, q);
    LinkedStep(v, q, z);
    LinkedVia(v, y, p, q);
    LinkedVia(v, y, q, z);
  }

  lemma LaunchMeaning(v: seq<Point>, i: nat, t: real, z: Point)
    requires Launched(v, i, t, z)
    ensures i < |v| && 0.0 < t < 1.0 && OnlyMeets(v, Next(|v|, i), At(v[i], EdgeEnd(v, i), t), z) && Cross(v[i], EdgeEnd(v, i), z) != 0.0
  {
  }

  lemma LaunchFrom(v: seq<Point>, i: nat, left: bool, t: real, z: Point)
    requires i < |v| && 0.0 < t < 1.0 && OnlyMeets(v, Next(|v|, i), At(v[i], EdgeEnd(v, i), t), z) && OnHand(v, i, left, z)
    ensures Launched(v, i, t, z)
  {
  }

  // -- steps that miss a segment still miss it when one end moves a little

  /** Steps from p that end near q miss the segment. */
  ghost predicate MissesNear(p: Point, q: Point, c: Point, d: Point, eps: real) { forall z: Point :: Near(q, z, eps) ==> !Meet(p, z, c, d) }

  /** On which side of a line points near q are, with some room. */
  lemma SideNearby(a: Point, b: Point, q: Point) returns (eps: real)
    requires Cross(a, b, q) != 0.0
    ensures eps > 0.0 && forall z: Point :: Near(q, z, eps) ==> Cross(a, b, z) != 0.0 && (Cross(a, b, z) > 0.0 <==> Cross(a, b, q) > 0.0)
  {
    hide Cross, Times;
    eps := SmallShare(Abs(Cross(a, b, q)), Abs(b.x - a.x) + Abs(b.y - a.y));
    forall z: Point | Near(q, z, eps) ensures Cross(a, b, z) != 0.0 && (Cross(a, b, z) > 0.0 <==> Cross(a, b, q) > 0.0) {
      CrossMoves(a, b, q, z, eps);
      hide Near;
    }
  }

  /** The step starts and ends on one side of the segment's line. */
  lemma MissesOffLine(p: Point, q: Point, c: Point, d: Point) returns (eps: real)
    requires (Cross(c, d, p) > 0.0 && Cross(c, d, q) > 0.0) || (Cross(c, d, p) < 0.0 && Cross(c, d, q) < 0.0)
    ensures eps > 0.0 && MissesNear(p, q, c, d, eps)
  {
    hide Cross, Near, Meet;
    eps := SideNearby(c, d, q);
    forall z: Point | Near(q, z, eps) ensures !Meet(p, z, c, d) { OnOneSide(c, d, p, z); }
  }

  lemma MeetMirrored(p: Point, q: Point, c: Point, d: Point)
    ensures Meet(p, q, c, d) ==> Meet(c, d, p, q)
  {
    if t: real, u: real :| 0.0 <= t <= 1.0 && 0.0 <= u <= 1.0 && At(p, q, t) == At(c, d, u) { MeetAt(p, q, c, d, t, u); }
    hide At;
  }

  /** The segment lies on one side of the step's line. */
  lemma MissesBesideStep(p: Point, q: Point, c: Point, d: Point) returns (eps: real)
    requires (Cross(p, q, c) > 0.0 && Cross(p, q, d) > 0.0) || (Cross(p, q, c) < 0.0 && Cross(p, q, d) < 0.0)
    ensures eps > 0.0 && MissesNear(p, q, c, d, eps)
  {
    CrossCycles(c, p, q);
    CrossCycles(d, p, q);
    hide Cross, Near, Meet;
    var first := SideNearby(c, p, q);
    var second := SideNearby(d, p, q);
    eps := LessOf(first, second);
    forall z: Point | Near(q, z, eps) ensures !Meet(p, z, c, d) {
      NearerIsNear(q, z, eps, first);
      NearerIsNear(q, z, eps, second);
      CrossCycles(c, p, z);
      CrossCycles(d, p, z);
      OnOneSide(p, z, c, d);
      MeetMirrored(p, z, c, d);
    }
  }

  /** A line square to the step through the place at x: points of the step's line are on the side their place says. */
  function SquareEnd(p: Point, q: Point, x: real): Point { Point(At(p, q, x).x + (q.y - p.y), At(p, q, x).y - (q.x - p.x)) }

  lemma SquareSide(p: Point, q: Point, x: real, y: real)
    requires p != q
    ensures var side := Cross(At(p, q, x), SquareEnd(p, q, x), At(p, q, y)); (y > x ==> side > 0.0) && (y < x ==> side < 0.0) && (y == x ==> side == 0.0)
  {
    LengthPositive(p, q);
    var rx, ry := q.x - p.x, q.y - p.y;
    SquareProducts(p.x, p.y, rx, ry, x, y);
    SignOfProduct(LengthSquared(p, q), y - x);
  }

  lemma SquareProducts(px: real, py: real, rx: real, ry: real, x: real, y: real)
    ensures ry * ((py + ry * y) - (py + ry * x)) - (-rx) * ((px + rx * y) - (px + rx * x)) == (rx * rx + ry * ry) * (y - x)
  {
    assert ry * ((py + ry * y) - (py + ry * x)) == (ry * ry) * (y - x);
    assert (-rx) * ((px + rx * y) - (px + rx * x)) == -((rx * rx) * (y - x));
  }

  lemma WeakSides(a: Point, b: Point, p: Point, q: Point, c: Point, d: Point)
    requires Cross(a, b, p) >= 0.0 && Cross(a, b, q) >= 0.0 && Cross(a, b, c) < 0.0 && Cross(a, b, d) < 0.0
    ensures !Meet(p, q, c, d)
  {
    hide Cross, At;
    if t: real, u: real :| 0.0 <= t <= 1.0 && 0.0 <= u <= 1.0 && At(p, q, t) == At(c, d, u) {
      CrossAlong(a, b, p, q, t);
      CrossAlong(a, b, c, d, u);
      ConvexNegative(Cross(a, b, c), Cross(a, b, d), u);
      BetweenCoordinates(Cross(a, b, p), Cross(a, b, q), t);
    }
  }

  lemma OnStepLine(p: Point, q: Point, c: Point, d: Point)
    requires p != q && c != d && Cross(c, d, p) == 0.0 && Cross(c, d, q) == 0.0
    ensures Cross(p, q, c) == 0.0 && Cross(p, q, d) == 0.0
  {
    CollinearAt(c, d, p);
    CollinearAt(c, d, q);
    OnLine(c, d, Param(c, d, p), Param(c, d, q), c);
    OnLine(c, d, Param(c, d, p), Param(c, d, q), d);
    hide Cross, Param, At;
  }

  /** Neither line separates the two: then they lie on one line. */
  lemma ApartOnOneLine(p: Point, q: Point, c: Point, d: Point)
    requires p != q && c != d && !Meet(p, q, c, d)
    requires !(Cross(c, d, p) > 0.0 && Cross(c, d, q) > 0.0) && !(Cross(c, d, p) < 0.0 && Cross(c, d, q) < 0.0)
    requires !(Cross(p, q, c) > 0.0 && Cross(p, q, d) > 0.0) && !(Cross(p, q, c) < 0.0 && Cross(p, q, d) < 0.0)
    ensures Cross(p, q, c) == 0.0 && Cross(p, q, d) == 0.0
  {
    IntersectExactly(p, q, c, d);
    hide Cross, Meet, WithinBox;
    if Cross(c, d, p) == 0.0 && Cross(c, d, q) == 0.0 { OnStepLine(p, q, c, d); }
  }

  lemma StartBetween(p: Point, q: Point, x: real, y: real)
    requires (x < 0.0 && y > 1.0) || (y < 0.0 && x > 1.0)
    ensures Meet(p, q, At(p, q, x), At(p, q, y))
  {
    hide At;
    BetweenIsShared(p, q, x, y, 0.0);
    var u: real :| 0.0 <= u <= 1.0 && At(p, q, 0.0) == At(At(p, q, x), At(p, q, y), u);
    MeetAt(p, q, At(p, q, x), At(p, q, y), 0.0, u);
  }

  /** On one line, the segment lies before the step or after it. */
  lemma BeforeOrAfter(p: Point, q: Point, c: Point, d: Point, x: real, y: real)
    requires p != q && c == At(p, q, x) && d == At(p, q, y) && !Meet(p, q, c, d)
    ensures (x < 0.0 && y < 0.0) || (x > 1.0 && y > 1.0)
  {
    Ends(c, d);
    hide At;
    if 0.0 <= x <= 1.0 { MeetAt(p, q, c, d, x, 0.0); }
    if 0.0 <= y <= 1.0 { MeetAt(p, q, c, d, y, 1.0); }
    if (x < 0.0 && y > 1.0) || (y < 0.0 && x > 1.0) { StartBetween(p, q, x, y); }
  }

  lemma MissesBefore(p: Point, q: Point, x: real, y: real) returns (eps: real)
    requires p != q && x < 0.0 && y < 0.0
    ensures eps > 0.0 && MissesNear(p, q, At(p, q, x), At(p, q, y), eps)
  {
    SquareSide(p, q, 0.0, 0.0);
    SquareSide(p, q, 0.0, 1.0);
    SquareSide(p, q, 0.0, x);
    SquareSide(p, q, 0.0, y);
    Ends(p, q);
    hide Cross, At, Near, Meet, SquareEnd;
    eps := SideNearby(p, SquareEnd(p, q, 0.0), q);
    forall z: Point | Near(q, z, eps) ensures !Meet(p, z, At(p, q, x), At(p, q, y)) {
      WeakSides(p, SquareEnd(p, q, 0.0), p, z, At(p, q, x), At(p, q, y));
    }
  }

  lemma MissesAfter(p: Point, q: Point, x: real, y: real) returns (eps: real)
    requires p != q && x > 1.0 && y > 1.0
    ensures eps > 0.0 && MissesNear(p, q, At(p, q, x), At(p, q, y), eps)
  {
    var w := (1.0 + Min(x, y)) / 2.0;
    assert 1.0 < w < x && w < y;
    SquareSide(p, q, w, 0.0);
    SquareSide(p, q, w, 1.0);
    SquareSide(p, q, w, x);
    SquareSide(p, q, w, y);
    Ends(p, q);
    hide Cross, At, Near, Meet, SquareEnd, Min;
    eps := SideNearby(At(p, q, w), SquareEnd(p, q, w), q);
    forall z: Point | Near(q, z, eps) ensures !Meet(p, z, At(p, q, x), At(p, q, y)) {
      WeakSides(At(p, q, w), SquareEnd(p, q, w), At(p, q, x), At(p, q, y), p, z);
      MeetMirrored(p, z, At(p, q, x), At(p, q, y));
    }
  }

  /** A step that misses a segment still does so when its end moves a little. */
  lemma StillMisses(p: Point, q: Point, c: Point, d: Point) returns (eps: real)
    requires p != q && c != d && !Meet(p, q, c, d)
    ensures eps > 0.0 && MissesNear(p, q, c, d, eps)
  {
    hide Cross, Meet, At, Param, MissesNear;
    if (Cross(c, d, p) > 0.0 && Cross(c, d, q) > 0.0) || (Cross(c, d, p) < 0.0 && Cross(c, d, q) < 0.0) {
      eps := MissesOffLine(p, q, c, d);
    } else if (Cross(p, q, c) > 0.0 && Cross(p, q, d) > 0.0) || (Cross(p, q, c) < 0.0 && Cross(p, q, d) < 0.0) {
      eps := MissesBesideStep(p, q, c, d);
    } else {
      ApartOnOneLine(p, q, c, d);
      CollinearAt(p, q, c);
      CollinearAt(p, q, d);
      var x, y := Param(p, q, c), Param(p, q, d);
      BeforeOrAfter(p, q, c, d, x, y);
      if x < 0.0 { eps := MissesBefore(p, q, x, y); } else { eps := MissesAfter(p, q, x, y); }
    }
  }

  /** Of the first n edges none but edge e is met by steps from p that end near q. */
  ghost predicate OnlyNear(v: seq<Point>, e: nat, p: Point, q: Point, eps: real, n: nat)
    requires n <= |v|
  {
    forall k :: 0 <= k < n && k != e ==> MissesNear(p, q, v[k], Before(v, k), eps)
  }

  lemma MissesNearer(p: Point, q: Point, c: Point, d: Point, eps: real, less: real)
    requires MissesNear(p, q, c, d, eps) && less <= eps
    ensures MissesNear(p, q, c, d, less)
  {
    forall z: Point | Near(q, z, less) ensures !Meet(p, z, c, d) { NearerIsNear(q, z, less, eps); }
    hide Near, Meet;
  }

  lemma {:induction false} StillOnly(v: seq<Point>, e: nat, p: Point, q: Point, n: nat) returns (eps: real)
    requires IsRing(v) && n <= |v| && p != q && OnlyMeets(v, e, p, q)
    ensures eps > 0.0 && OnlyNear(v, e, p, q, eps, n)
  {
    hide MissesNear, Meet;
    eps := 1.0;
    if n > 0 {
      var before := StillOnly(v, e, p, q, n - 1);
      eps := before;
      if n - 1 != e {
        var last := StillMisses(p, q, v[n - 1], Before(v, n - 1));
        eps := LessOf(before, last);
        MissesNearer(p, q, v[n - 1], Before(v, n - 1), last, eps);
      }
      forall k | 0 <= k < n - 1 && k != e ensures MissesNear(p, q, v[k], Before(v, k), eps) {
        MissesNearer(p, q, v[k], Before(v, k), before, eps);
      }
    }
  }

  // -- along an edge and around a corner

  lemma NearOnly(v: seq<Point>, e: nat, p: Point, q: Point, eps: real, z: Point)
    requires OnlyNear(v, e, p, q, eps, |v|) && Near(q, z, eps)
    ensures OnlyMeets(v, e, p, z)
  {
    forall k | 0 <= k < |v| && k != e ensures !Meet(p, z, v[k], Before(v, k)) { assert MissesNear(p, q, v[k], Before(v, k), eps); }
    hide Near, Meet;
  }

  lemma Apart(a: Point, b: Point, t: real, s: real)
    requires a != b && t != s
    ensures At(a, b, t) != At(a, b, s)
  {
    ParamOfAt(a, b, t);
    ParamOfAt(a, b, s);
    hide At, Param;
  }

  lemma OnlyFrom(v: seq<Point>, i: nat, t: real, s: real) returns (eps: real)
    requires Simple(v) && i < |v| && 0.0 < t < 1.0 && 0.0 < s < 1.0 && t != s
    ensures eps > 0.0 && OnlyNear(v, Next(|v|, i), At(v[i], EdgeEnd(v, i), t), At(v[i], EdgeEnd(v, i), s), eps, |v|)
  {
    SimpleMeaning(v);
    EdgesHaveLength(v, i);
    hide *;
    AlongEdge(v, i, t, s);
    Apart(v[i], EdgeEnd(v, i), t, s);
    eps := StillOnly(v, Next(|v|, i), At(v[i], EdgeEnd(v, i), t), At(v[i], EdgeEnd(v, i), s), |v|);
  }

  /** Some point is launched from two places of an edge, to either hand as wanted. */
  lemma OverEdge(v: seq<Point>, i: nat, left: bool, t: real, s: real) returns (z: Point)
    requires Simple(v) && i < |v| && 0.0 < t < 1.0 && 0.0 < s < 1.0 && t != s
    ensures Launched(v, i, t, z) && Launched(v, i, s, z) && OnHand(v, i, left, z)
  {
    EdgesHaveLength(v, i);
    var m := (t + s) / 2.0;
    assert 0.0 < m < 1.0 && m != t && m != s;
    hide *;
    var first := OnlyFrom(v, i, t, m);
    var second := OnlyFrom(v, i, s, m);
    var eps := LessOf(first, second);
    z := HandInBox(v[i], EdgeEnd(v, i), m, left, eps);
    NearerIsNear(At(v[i], EdgeEnd(v, i), m), z, eps, first);
    NearerIsNear(At(v[i], EdgeEnd(v, i), m), z, eps, second);
    NearOnly(v, Next(|v|, i), At(v[i], EdgeEnd(v, i), t), At(v[i], EdgeEnd(v, i), m), first, z);
    NearOnly(v, Next(|v|, i), At(v[i], EdgeEnd(v, i), s), At(v[i], EdgeEnd(v, i), m), second, z);
    HandMeaning(v, i, left, z);
    LaunchFrom(v, i, left, t, z);
    LaunchFrom(v, i, left, s, z);
  }

  lemma HandMeaning(v: seq<Point>, i: nat, left: bool, z: Point)
    requires i < |v|
    ensures OnHand(v, i, left, z) <==> Cross(v[i], EdgeEnd(v, i), z) != 0.0 && (Cross(v[i], EdgeEnd(v, i), z) > 0.0) == left
  {
  }

  /** Points launched from one edge to one hand are linked. */
  lemma EdgeLinks(v: seq<Point>, i: nat, left: bool, t: real, y: Point, s: real, z: Point)
    requires Simple(v) && Launched(v, i, t, y) && Launched(v, i, s, z) && OnHand(v, i, left, y) && OnHand(v, i, left, z)
    ensures Linked(v, y, z)
  {
    LaunchMeaning(v, i, t, y);
    LaunchMeaning(v, i, s, z);
    hide *;
    if t == s {
      LaunchesLink(v, i, left, t, y, z);
    } else {
      var x := OverEdge(v, i, left, t, s);
      LaunchesLink(v, i, left, t, y, x);
      LaunchesLink(v, i, left, s, x, z);
      LinkedVia(v, y, x, z);
    }
  }

  lemma Mirrored(a: Point, b: Point, e: Point, z: Point)
    requires Cross(a, b, e) == 0.0
    ensures Cross(a, b, At(z, e, 2.0)) == -Cross(a, b, z)
  {
    CrossAlong(a, b, z, e, 2.0);
    hide Cross, At;
  }

  lemma MirroredNear(b: Point, z: Point, eps: real)
    requires Near(b, z, eps)
    ensures Near(b, At(z, b, 2.0), eps)
  {
  }

  /** Beside every corner a point is launched from both edges, to either hand as wanted. */
  lemma CornerLaunch(v: seq<Point>, i: nat, left: bool) returns (s: real, z: Point)
    requires Simple(v) && i < |v|
    ensures 0.0 < s < 1.0 && Launched(v, i, 1.0 - s, z) && Launched(v, Next(|v|, i), s, z)
    ensures OnHand(v, i, left, z) && OnHand(v, Next(|v|, i), left, z)
  {
    hide *;
    var y, eps;
    s, y, eps := CornerFound(v, i);
    z := CornerEither(v, i, left, s, y, eps);
    CornerHands(v, i, s, z, eps);
    CornerSteps(v, i, s, z, eps);
    HandMeaning(v, i, left, z);
    HandMeaning(v, Next(|v|, i), left, z);
    LaunchFrom(v, i, left, 1.0 - s, z);
    LaunchFrom(v, Next(|v|, i), left, s, z);
  }

  lemma CornerEither(v: seq<Point>, i: nat, left: bool, s: real, y: Point, eps: real) returns (z: Point)
    requires i < |v| && CornerPoint(v, i, s, y, eps)
    ensures CornerPoint(v, i, s, z, eps) && (Cross(v[i], EdgeEnd(v, i), z) > 0.0) == left
  {
    var j := Next(|v|, i);
    var a, b, c := v[i], v[j], EdgeEnd(v, j);
    CrossAtEnds(a, b);
    CrossAtEnds(b, c);
    Mirrored(a, b, b, y);
    Mirrored(b, c, b, y);
    MirroredNear(b, y, eps);
    hide Cross, At, Near, ClearOf, Meet;
    z := if (Cross(a, b, y) > 0.0) == left then y else At(y, b, 2.0);
    HandIsSame(a, b, c, s, z);
  }

  // -- around the whole ring

  lemma SameHandAs(v: seq<Point>, i: nat, t: real, y: Point, s: real, z: Point)
    requires Simple(v) && Launched(v, i, t, y) && Launched(v, i, s, z) && StrictlyInside(v, y) == StrictlyInside(v, z)
    ensures Linked(v, y, z)
  {
    LaunchMeaning(v, i, t, y);
    hide *;
    var left := LeftIn(v, i) == StrictlyInside(v, z);
    LaunchedTold(v, i, t, y);
    LaunchedTold(v, i, s, z);
    EdgeLinks(v, i, left, t, y, s, z);
  }

  lemma HandTold(v: seq<Point>, i: nat, t: real, y: Point, s: real, z: Point, left: bool)
    requires Simple(v) && Launched(v, i, t, y) && Launched(v, i, s, z) && OnHand(v, i, left, y) && OnHand(v, i, left, z)
    ensures StrictlyInside(v, y) == StrictlyInside(v, z)
  {
    LaunchedTold(v, i, t, y);
    LaunchedTold(v, i, s, z);
    hide Launched, Simple, StrictlyInside, Cross, LeftIn;
  }

  /** From beside one edge the next is reached. */
  lemma NextReached(v: seq<Point>, i: nat, t: real, z: Point) returns (s: real, y: Point)
    requires Simple(v) && Launched(v, i, t, z)
    ensures Launched(v, Next(|v|, i), s, y) && Linked(v, z, y) && StrictlyInside(v, y) == StrictlyInside(v, z)
  {
    LaunchMeaning(v, i, t, z);
    hide *;
    var left := LeftIn(v, i) == StrictlyInside(v, z);
    LaunchedTold(v, i, t, z);
    s, y := CornerLaunch(v, i, left);
    EdgeLinks(v, i, left, t, z, 1.0 - s, y);
    HandTold(v, i, t, z, 1.0 - s, y, left);
  }

  /** How many edges come before edge j from edge i on. */
  function StepsTo(n: nat, i: nat, j: nat): nat
    requires i < n && j < n
  {
    if i <= j then j - i else j + n - i
  }

  lemma OneStepLess(n: nat, i: nat, j: nat)
    requires i < n && j < n && i != j
    ensures StepsTo(n, Next(n, i), j) < StepsTo(n, i, j)
  {
  }

  /** From beside one edge every edge is reached. */
  lemma {:induction false} EdgeReached(v: seq<Point>, i: nat, t: real, z: Point, j: nat) returns (s: real, y: Point)
    requires Simple(v) && Launched(v, i, t, z) && i < |v| && j < |v|
    ensures Launched(v, j, s, y) && Linked(v, z, y) && StrictlyInside(v, y) == StrictlyInside(v, z)
    decreases StepsTo(|v|, i, j)
  {
    hide *;
    if i == j {
      s, y := t, z;
      SameHandAs(v, i, t, z, t, z);
    } else {
      var u, x := NextReached(v, i, t, z);
      OneStepLess(|v|, i, j);
      s, y := EdgeReached(v, Next(|v|, i), u, x, j);
      LinkedVia(v, z, x, y);
    }
  }

  /** Every point off the ring is launched from some edge. */
  lemma LaunchFound(v: seq<Point>, z: Point) returns (i: nat, t: real)
    requires Simple(v) && !OnBoundary(v, z)
    ensures Launched(v, i, t, z)
  {
    SimpleMeaning(v);
    VerticesOnBoundary(v, z);
    hide *;
    var q := AimFound(v, v, z);
    var s := HitExists(v, v, z, q);
    i, t := HitEdge(v, z, q, s, At(z, q, s));
    HitAlone(v, z, q, s, At(z, q, s), i, t);
    HitAskew(v, z, q, s, At(z, q, s), i, t);
    LaunchHere(v, i, t, z);
  }

  lemma LaunchHere(v: seq<Point>, i: nat, t: real, z: Point)
    requires i < |v| && 0.0 < t < 1.0 && OnlyMeets(v, Next(|v|, i), At(v[i], EdgeEnd(v, i), t), z) && Cross(v[i], EdgeEnd(v, i), z) != 0.0
    ensures Launched(v, i, t, z)
  {
  }

  lemma SameVerdictLinked(v: seq<Point>, y: Point, z: Point)
    requires Simple(v) && !OnBoundary(v, y) && !OnBoundary(v, z) && StrictlyInside(v, y) == StrictlyInside(v, z)
    ensures Linked(v, y, z)
  {
    hide *;
    var i, t := LaunchFound(v, y);
    var j, u := LaunchFound(v, z);
    LaunchMeaning(v, i, t, y);
    LaunchMeaning(v, j, u, z);
    var s, x := EdgeReached(v, i, t, y, j);
    SameHandAs(v, j, s, x, u, z);
    LinkedVia(v, y, x, z);
  }

  lemma LinkedSameVerdict(v: seq<Point>, y: Point, z: Point)
    requires Linked(v, y, z)
    ensures StrictlyInside(v, y) == StrictlyInside(v, z)
  {
    hide StrictlyInside, PathAvoids;
    var path: seq<Point> :| Leads(v, path, y, z);
    PathStays(v, path);
  }

  /** A valid ring has one inside and one outside: two points off it are linked exactly if both are inside or both are not. */
  lemma TwoRegions(v: seq<Point>, y: Point, z: Point)
    requires Simple(v) && !OnBoundary(v, y) && !OnBoundary(v, z)
    ensures Linked(v, y, z) <==> StrictlyInside(v, y) == StrictlyInside(v, z)
  {
    hide *;
    if Linked(v, y, z) { LinkedSameVerdict(v, y, z); }
    if StrictlyInside(v, y) == StrictlyInside(v, z) { SameVerdictLinked(v, y, z); }
  }

  // -- inside means enclosed

  /** Every path from the point to one beside all vertices touches an edge. */
  ghost predicate Enclosed(v: seq<Point>, z: Point) {
    forall path: seq<Point> :: path != [] && path[0] == z && Beside(v, path[|path| - 1]) ==> !PathAvoids(v, path)
  }

  lemma {:induction false} BelowAll(v: seq<Point>) returns (p: Point)
    ensures forall i :: 0 <= i < |v| ==> v[i].y > p.y
  {
    if v == [] {
      p := Point(0.0, 0.0);
    } else {
      var front := v[..|v| - 1];
      var q := BelowAll(front);
      p := Point(0.0, Min(q.y, v[|v| - 1].y - 1.0));
      forall i | 0 <= i < |v| ensures v[i].y > p.y {
        if i < |v| - 1 { assert v[i] == front[i]; }
      }
    }
  }

  /** The strict containment test of a valid ring is exact: off the boundary a point is inside if and only if there is no way out. */
  lemma InsideIsEnclosedExactly(v: seq<Point>, z: Point)
    requires Simple(v) && !OnBoundary(v, z)
    ensures StrictlyInside(v, z) <==> Enclosed(v, z)
  {
    hide Simple, OnBoundary, StrictlyInside, PathAvoids;
    if StrictlyInside(v, z) {
      hide Beside;
      forall path: seq<Point> | path != [] && path[0] == z && Beside(v, path[|path| - 1]) ensures !PathAvoids(v, path) { InsideIsEnclosed(v, path); }
    } else {
      var far := BelowAll(v);
      assert Beside(v, far);
      hide Beside;
      FarIsOutside(v, far);
      BesideIsOffBoundary(v, far);
      SameVerdictLinked(v, z, far);
      var path: seq<Point> :| Leads(v, path, z, far);
      assert path != [] && path[0] == z && Beside(v, path[|path| - 1]);
    }
  }
}
