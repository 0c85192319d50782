/** Which side of an edge is the inner one, and that it is the same side along the whole ring. */
module RingSides {
  import opened ClearanceRoots
  import opened Segments
  import opened Rings
  import opened RingParity
  import opened RingOverlap
  import RingDecision

  // -- the ray past every edge but one

  /** Parity of the ray's crossings over the first n edges, not counting the one into vertex e. */
  function Rest(v: seq<Point>, e: nat, z: Point, n: nat): bool
    requires n <= |v|
  {
    if n == 0 then false else Rest(v, e, z, n - 1) != (n - 1 != e && RayCrosses(v[n - 1], Before(v, n - 1), z))
  }

  lemma {:induction false} RestAndEdge(v: seq<Point>, e: nat, z: Point, n: nat)
    requires n <= |v| && e < |v|
    ensures Parity(v, z, n) == (Rest(v, e, z, n) != (e < n && RayCrosses(v[e], Before(v, e), z)))
  {
    hide RayCrosses;
    if n > 0 {
      RestAndEdge(v, e, z, n - 1);
      LastRay(v, z, n);
      hide Parity;
    }
  }

  /** The step touches no edge but possibly the one into vertex e. */
  ghost predicate OnlyMeets(v: seq<Point>, e: nat, p: Point, q: Point) {
    forall k :: 0 <= k < |v| && k != e ==> !Meet(p, q, v[k], Before(v, k))
  }

  lemma {:induction false} RestTelescopes(v: seq<Point>, e: nat, p: Point, q: Point, n: nat)
    requires e < |v| && 1 <= n <= |v| && p.y <= q.y && OnlyMeets(v, e, p, q)
    ensures (Rest(v, e, p, n) != Rest(v, e, q, n)) ==
              ((Beyond(p, q, v[|v| - 1]) != Beyond(p, q, v[n - 1])) != (e < n && (Beyond(p, q, Before(v, e)) != Beyond(p, q, v[e]))))
  {
    hide RayCrosses, Beyond, Meet, ProperCross;
    if n - 1 != e {
      RayTurns(p, q, v[n - 1], Before(v, n - 1));
      ProperCrossMeets(p, q, v[n - 1], Before(v, n - 1));
    }
    if n > 1 { RestTelescopes(v, e, p, q, n - 1); }
  }

  /** Along a step that touches no other edge the rest changes exactly if one end of the left-out edge is swept over. */
  lemma RestMoves(v: seq<Point>, e: nat, p: Point, q: Point)
    requires e < |v| && p.y <= q.y && OnlyMeets(v, e, p, q)
    ensures (Rest(v, e, p, |v|) != Rest(v, e, q, |v|)) == (Beyond(p, q, Before(v, e)) != Beyond(p, q, v[e]))
  {
    hide Rest, Beyond, OnlyMeets;
    RestTelescopes(v, e, p, q, |v|);
  }

  lemma OnlyMeetsBackwards(v: seq<Point>, e: nat, p: Point, q: Point)
    requires OnlyMeets(v, e, p, q)
    ensures OnlyMeets(v, e, q, p)
  {
    forall k | 0 <= k < |v| && k != e ensures !Meet(q, p, v[k], Before(v, k)) {
      if Meet(q, p, v[k], Before(v, k)) { MeetBackwards(p, q, v[k], Before(v, k)); }
      hide Meet;
    }
  }

  // -- a point beside an inner point of an edge

  function Lower(m: Point, z: Point): Point { if m.y <= z.y then m else z }

  function Upper(m: Point, z: Point): Point { if m.y <= z.y then z else m }

  lemma CrossFrom(a: Point, b: Point, t: real, z: Point)
    ensures var m := At(a, b, t);
            && Cross(m, z, b) == -Times(1.0 - t, Cross(a, b, z)) && Cross(m, z, a) == Times(t, Cross(a, b, z))
            && Cross(z, m, b) == Times(1.0 - t, Cross(a, b, z)) && Cross(z, m, a) == -Times(t, Cross(a, b, z))
  {
    FromInner(b.x - a.x, b.y - a.y, z.x - a.x, z.y - a.y, t);
    var m := At(a, b, t);
    CrossSwaps(m, z, b);
    CrossSwaps(m, z, a);
    CrossAsShift(a, b, t, z);
  }

  lemma CrossAsShift(a: Point, b: Point, t: real, z: Point)
    ensures var (rx, ry, zx, zy) := (b.x - a.x, b.y - a.y, z.x - a.x, z.y - a.y);
            var m := At(a, b, t);
            && Cross(m, z, b) == (zx - rx * t) * (ry - ry * t) - (zy - ry * t) * (rx - rx * t)
            && Cross(m, z, a) == (zx - rx * t) * (-(ry * t)) - (zy - ry * t) * (-(rx * t))
            && Cross(a, b, z) == rx * zy - ry * zx
  {
  }

  lemma FromInner(rx: real, ry: real, zx: real, zy: real, t: real)
    ensures (zx - rx * t) * (ry - ry * t) - (zy - ry * t) * (rx - rx * t) == -((1.0 - t) * (rx * zy - ry * zx))
    ensures (zx - rx * t) * (-(ry * t)) - (zy - ry * t) * (-(rx * t)) == t * (rx * zy - ry * zx)
  {
    var px, py := rx * t, ry * t;
    assert (zx - px) * (ry - py) - (zy - py) * (rx - px) == (zx * ry - zy * rx) - (zx * py - zy * px) - (px * ry - py * rx);
    assert zx * py - zy * px == (zx * ry - zy * rx) * t;
    assert px * ry - py * rx == 0.0;
    assert (zx - px) * (-py) - (zy - py) * (-px) == -(zx * py - zy * px);
  }

  /** The ray beside the edge, and what the step from the edge to there sweeps over. */
  predicate Turned(a: Point, b: Point, m: Point, z: Point) {
    RayCrosses(b, a, z) != (Beyond(Lower(m, z), Upper(m, z), a) != Beyond(Lower(m, z), Upper(m, z), b))
  }

  lemma InnerHeight(a: Point, b: Point, t: real)
    requires 0.0 < t < 1.0
    ensures var m := At(a, b, t);
            && (a.y < b.y ==> a.y < m.y < b.y) && (a.y > b.y ==> b.y < m.y < a.y) && (a.y == b.y ==> m.y == a.y)
  {
    InnerCoordinate(a.y, b.y - a.y, t, At(a, b, t).y);
  }

  lemma InnerCoordinate(c: real, r: real, t: real, m: real)
    requires 0.0 < t < 1.0 && m == c + r * t
    ensures (r > 0.0 ==> c < m < c + r) && (r < 0.0 ==> c + r < m < c) && (r == 0.0 ==> m == c)
  {
    SignOfProduct(r, t);
    SignOfProduct(r, 1.0 - t);
    assert r * (1.0 - t) == r - r * t;
  }

  /** Signs of the areas between the inner point, the point beside the edge and the edge's ends. */
  lemma EndSigns(a: Point, b: Point, t: real, z: Point)
    requires 0.0 < t < 1.0 && Cross(a, b, z) != 0.0
    ensures var (m, left) := (At(a, b, t), Cross(a, b, z) > 0.0);
            && (Cross(m, z, b) < 0.0 <==> left) && (Cross(m, z, a) < 0.0 <==> !left)
            && (Cross(z, m, b) < 0.0 <==> !left) && (Cross(z, m, a) < 0.0 <==> left)
  {
    CrossFrom(a, b, t, z);
    SignOfTimes(1.0 - t, Cross(a, b, z));
    SignOfTimes(t, Cross(a, b, z));
    hide Cross, Times, At;
  }

  lemma HeightOnLevel(a: Point, b: Point, z: Point)
    requires a.y == b.y && Cross(a, b, z) != 0.0
    ensures z.y != a.y && (Cross(a, b, z) > 0.0 <==> (a.x < b.x <==> z.y > a.y))
  {
    SignOfProduct(b.x - a.x, z.y - a.y);
  }

  /** On which side the ray beside the edge tells differently from the rest at the edge. */
  lemma TurnedMeaning(a: Point, b: Point, t: real, z: Point)
    requires 0.0 < t < 1.0 && Cross(a, b, z) != 0.0
    ensures var left := Cross(a, b, z) > 0.0;
            Turned(a, b, At(a, b, t), z) == if a.y < b.y then left else if a.y > b.y then !left else left != (a.x < b.x)
  {
    var m := At(a, b, t);
    EndSigns(a, b, t, z);
    InnerHeight(a, b, t);
    RayCrossesIsCrossing(b, a, z);
    CrossSwaps(a, b, z);
    if a.y == b.y { HeightOnLevel(a, b, z); }
    hide Cross, At, RayCrosses;
  }

  /** The left side is inside, if the rest at an inner point of the edge is as given. */
  predicate LeftFrom(a: Point, b: Point, rest: bool) {
    if a.y < b.y then !rest else if a.y > b.y then rest else rest == (a.x < b.x)
  }

  /** The left side of edge i is the inner one. */
  predicate LeftIn(v: seq<Point>, i: nat)
    requires i < |v|
  {
    LeftFrom(v[i], EdgeEnd(v, i), Rest(v, Next(|v|, i), At(v[i], EdgeEnd(v, i), 0.5), |v|))
  }

  lemma IntoNext(v: seq<Point>, i: nat)
    requires i < |v|
    ensures v[Next(|v|, i)] == EdgeEnd(v, i) && Before(v, Next(|v|, i)) == v[i]
  {
  }

  /** The verdict at a point beside the edge, from the rest at the edge's inner point. */
  lemma VerdictBeside(v: seq<Point>, i: nat, t: real, z: Point)
    requires i < |v| && 0.0 < t < 1.0 && Cross(v[i], EdgeEnd(v, i), z) != 0.0
    requires OnlyMeets(v, Next(|v|, i), At(v[i], EdgeEnd(v, i), t), z)
    ensures Parity(v, z, |v|) ==
              (LeftFrom(v[i], EdgeEnd(v, i), Rest(v, Next(|v|, i), At(v[i], EdgeEnd(v, i), t), |v|)) == (Cross(v[i], EdgeEnd(v, i), z) > 0.0))
  {
    var a, b, e := v[i], EdgeEnd(v, i), Next(|v|, i);
    var m := At(a, b, t);
    IntoNext(v, i);
    RestAndEdge(v, e, z, |v|);
    TurnedMeaning(a, b, t, z);
    if m.y > z.y { OnlyMeetsBackwards(v, e, m, z); }
    RestMoves(v, e, Lower(m, z), Upper(m, z));
    hide Rest, Parity, RayCrosses, Beyond, Cross, At, OnlyMeets, EdgeEnd, Before;
  }

  // -- along one edge

  lemma OnLine(a: Point, b: Point, s: real, t: real, c: Point)
    requires c == a || c == b
    ensures Cross(At(a, b, s), At(a, b, t), c) == 0.0
  {
    var rx, ry := b.x - a.x, b.y - a.y;
    var u := if c == a then 0.0 else 1.0;
    Ends(a, b);
    assert c == At(a, b, u);
    Collinear(rx, ry, s, t, u);
    LineCoordinates(a.x, rx, s, t, u);
    LineCoordinates(a.y, ry, s, t, u);
  }

  lemma LineCoordinates(c: real, r: real, s: real, t: real, u: real)
    ensures (c + r * t) - (c + r * s) == r * (t - s) && (c + r * u) - (c + r * s) == r * (u - s)
  {
  }

  lemma Collinear(rx: real, ry: real, s: real, t: real, u: real)
    ensures (rx * (t - s)) * (ry * (u - s)) - (ry * (t - s)) * (rx * (u - s)) == 0.0
  {
    assert (rx * (t - s)) * (ry * (u - s)) == (rx * ry) * ((t - s) * (u - s));
    assert (ry * (t - s)) * (rx * (u - s)) == (rx * ry) * ((t - s) * (u - s));
  }

  lemma StepWithin(a: Point, b: Point, s: real, t: real, x: real)
    requires 0.0 < s < 1.0 && 0.0 < t < 1.0 && 0.0 <= x <= 1.0
    ensures exists y: real :: 0.0 < y < 1.0 && At(At(a, b, s), At(a, b, t), x) == At(a, b, y)
  {
    RingDecision.Within(a, b, s, t, x);
    RingDecision.BetweenStays(0.0, 1.0, s, t, x);
    hide At;
    assert 0.0 < s + (t - s) * x < 1.0;
  }

  /** A step between inner points of one edge of a valid ring touches no other edge. */
  lemma AlongEdge(v: seq<Point>, i: nat, s: real, t: real)
    requires Simple(v) && i < |v| && 0.0 < s < 1.0 && 0.0 < t < 1.0
    ensures OnlyMeets(v, Next(|v|, i), At(v[i], EdgeEnd(v, i), s), At(v[i], EdgeEnd(v, i), t))
  {
    var a, b := v[i], EdgeEnd(v, i);
    hide Simple, PointOnSegment, At;
    forall k | 0 <= k < |v| && k != Next(|v|, i) ensures !Meet(At(a, b, s), At(a, b, t), v[k], Before(v, k)) {
      if Meet(At(a, b, s), At(a, b, t), v[k], Before(v, k)) {
        var x: real, u: real :| 0.0 <= x <= 1.0 && 0.0 <= u <= 1.0 && At(At(a, b, s), At(a, b, t), x) == At(v[k], Before(v, k), u);
        StepWithin(a, b, s, t, x);
        var y: real :| 0.0 < y < 1.0 && At(At(a, b, s), At(a, b, t), x) == At(a, b, y);
        InnerPointsOnOneEdge(v, i, y);
        var j := LastVertexBefore(v, k);
        OnSegmentExactly(At(a, b, y), v[k], v[j]);
        OnReversed(At(a, b, y), v[k], v[j]);
      }
    }
  }

  lemma RestAlongEdge(v: seq<Point>, i: nat, s: real, t: real)
    requires Simple(v) && i < |v| && 0.0 < s < 1.0 && 0.0 < t < 1.0
    ensures Rest(v, Next(|v|, i), At(v[i], EdgeEnd(v, i), s), |v|) == Rest(v, Next(|v|, i), At(v[i], EdgeEnd(v, i), t), |v|)
  {
    var a, b, e := v[i], EdgeEnd(v, i), Next(|v|, i);
    var p, q := At(a, b, s), At(a, b, t);
    IntoNext(v, i);
    AlongEdge(v, i, s, t);
    AlongEdge(v, i, t, s);
    OnLine(a, b, s, t, a);
    OnLine(a, b, s, t, b);
    OnLine(a, b, t, s, a);
    OnLine(a, b, t, s, b);
    hide Simple, Rest, At, OnlyMeets, EdgeEnd, Before, Cross;
    if p.y <= q.y { RestMoves(v, e, p, q); } else { RestMoves(v, e, q, p); }
  }

  /** Beside any inner point of an edge, reached without touching another edge, a point is strictly inside exactly on the inner side. */
  lemma SideTold(v: seq<Point>, i: nat, t: real, z: Point)
    requires Simple(v) && i < |v| && 0.0 < t < 1.0 && Cross(v[i], EdgeEnd(v, i), z) != 0.0
    requires OnlyMeets(v, Next(|v|, i), At(v[i], EdgeEnd(v, i), t), z)
    ensures StrictlyInside(v, z) == (LeftIn(v, i) == (Cross(v[i], EdgeEnd(v, i), z) > 0.0))
  {
    VerdictBeside(v, i, t, z);
    RestAlongEdge(v, i, t, 0.5);
    BesideOffBoundary(v, i, At(v[i], EdgeEnd(v, i), t), z);
    hide Simple, Rest, Parity, OnlyMeets, At, Cross, OnBoundary, LeftFrom;
  }

  lemma BesideOffBoundary(v: seq<Point>, i: nat, m: Point, z: Point)
    requires i < |v| && Cross(v[i], EdgeEnd(v, i), z) != 0.0 && OnlyMeets(v, Next(|v|, i), m, z)
    ensures !OnBoundary(v, z)
  {
    forall j | 0 <= j < |v| ensures !PointOnSegment(z, v[j], EdgeEnd(v, j)) {
      if j != i && PointOnSegment(z, v[j], EdgeEnd(v, j)) {
        IntoNext(v, j);
        OnSegmentExactly(z, v[j], EdgeEnd(v, j));
        Ends(m, z);
        hide At, PointOnSegment, Cross;
        var u: real :| 0.0 <= u <= 1.0 && At(v[j], EdgeEnd(v, j), u) == z;
        EdgeMeets(v[j], EdgeEnd(v, j), m, z, u, 1.0);
      }
    }
  }
}
