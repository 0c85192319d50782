/** Around a corner the inner side stays on the same hand, so along a whole valid ring it is the side its turn says. */
module RingCorners {
  import opened ClearanceRoots
  import opened Segments
  import opened SegmentMeetings
  import opened Rings
  import opened RingParity
  import opened RingOverlap
  import opened RingSides
  import RingArea

  // -- small steps from a corner

  function Length(d: Point): real { Abs(d.x) + Abs(d.y) }

  lemma LengthIsPositive(d: Point)
    ensures Length(d) >= 0.0
  {
  }

  lemma LongerStep(k: real, m: real, s: real)
    requires k <= m && s >= 0.0
    ensures Times(k, s) <= Times(m, s)
  {
    NotNegative(m - k, s);
    assert (m - k) * s == m * s - k * s;
  }

  /** A width at which small steps in three directions stay in the box. */
  lemma SmallSteps(b: Point, d: Point, e: Point, f: Point, eps: real) returns (s: real)
    requires eps > 0.0
    ensures 0.0 < s < 1.0 && Near(b, Shifted(b, d, s), eps) && Near(b, Shifted(b, e, s), eps) && Near(b, Shifted(b, f, s), eps)
  {
    var width, k := Min(eps, 0.5), Max(Length(d), Max(Length(e), Length(f)));
    LengthIsPositive(d);
    s := SmallShare(width, k);
    LongerStep(Length(d), k, s);
    LongerStep(Length(e), k, s);
    LongerStep(Length(f), k, s);
    hide Times, Near, Shifted, Abs;
    ShiftedIsNear(b, d, s, eps);
    ShiftedIsNear(b, e, s, eps);
    ShiftedIsNear(b, f, s, eps);
  }

  // -- segments that do not meet

  lemma OnOneSide(a: Point, b: Point, p: Point, z: Point)
    requires (Cross(a, b, p) > 0.0 && Cross(a, b, z) > 0.0) || (Cross(a, b, p) < 0.0 && Cross(a, b, z) < 0.0)
    ensures !Meet(p, z, a, b)
  {
    hide Cross, At;
    if t: real, u: real :| 0.0 <= t <= 1.0 && 0.0 <= u <= 1.0 && At(p, z, t) == At(a, b, u) {
      CrossOnLine(a, b, u);
      CrossAlong(a, b, p, z, t);
      SignsCannotAgree(Cross(a, b, p), Cross(a, b, z), t);
    }
  }

  /** Segments on either side of the line b-z, the first ending at z and the second starting at b. */
  lemma EitherSide(b: Point, z: Point, p: Point, c: Point)
    requires b != z && ((Cross(b, z, p) > 0.0 && Cross(b, z, c) < 0.0) || (Cross(b, z, p) < 0.0 && Cross(b, z, c) > 0.0))
    ensures !Meet(p, z, b, c)
  {
    CrossAtEnds(b, z);
    Ends(p, z);
    Ends(b, c);
    hide Cross, At;
    if t: real, u: real :| 0.0 <= t <= 1.0 && 0.0 <= u <= 1.0 && At(p, z, t) == At(b, c, u) {
      CrossAlong(b, z, p, z, t);
      CrossAlong(b, z, b, c, u);
      OppositeShares(Cross(b, z, p), Cross(b, z, c), 1.0 - t, u);
    }
  }

  lemma OppositeShares(f: real, g: real, t: real, u: real)
    requires ((f > 0.0 && g < 0.0) || (f < 0.0 && g > 0.0)) && t >= 0.0 && u >= 0.0
    requires f + (0.0 - f) * (1.0 - t) == 0.0 + (g - 0.0) * u
    ensures t == 0.0 && u == 0.0
  {
    assert f + (0.0 - f) * (1.0 - t) == f * t;
    SignOfProduct(f, t);
    SignOfProduct(g, u);
  }

  /** A step in a box that two edges may enter, and that does not meet the other of them, meets its own edge only. */
  lemma MeetsOwnOnly(v: seq<Point>, own: nat, other: nat, b: Point, eps: real, p: Point, z: Point)
    requires own < |v| && other < |v| && ClearOf(v, b, eps, |v|, {own, other}) && Near(b, p, eps) && Near(b, z, eps)
    requires other != own ==> !Meet(p, z, v[other], EdgeEnd(v, other))
    ensures OnlyMeets(v, Next(|v|, own), p, z)
  {
    hide MissesBox, Near, Meet;
    forall k | 0 <= k < |v| && k != Next(|v|, own) ensures !Meet(p, z, v[k], Before(v, k)) {
      var h := LastVertexBefore(v, k);
      if h != other { StepInBox(b, eps, p, z, v[h], EdgeEnd(v, h)); }
      if Meet(p, z, v[k], Before(v, k)) { MeetReversed(p, z, v[h], v[k]); }
    }
  }

  // -- a corner

  lemma CornerBox(v: seq<Point>, i: nat) returns (eps: real)
    requires Simple(v) && i < |v|
    ensures eps > 0.0 && ClearOf(v, EdgeEnd(v, i), eps, |v|, {i, Next(|v|, i)})
  {
    var j := Next(|v|, i);
    hide PointOnSegment, SegmentsIntersect;
    forall k | 0 <= k < |v| && k !in {i, j} ensures !PointOnSegment(v[j], v[k], EdgeEnd(v, k)) {
      VertexOffEdges(v, j, k);
    }
    eps := BoxOffRing(v, v[j], |v|, {i, j});
  }

  lemma PartOfArea(a: Point, b: Point, e: Point, d: Point, s: real)
    requires Cross(a, b, e) == 0.0
    ensures Cross(a, b, At(e, d, s)) == Times(Cross(a, b, d), s)
  {
    CrossAlong(a, b, e, d, s);
    hide Cross, At;
  }

  lemma AtCorner(a: Point, b: Point, c: Point, s: real)
    ensures Cross(a, b, At(b, a, s)) == 0.0 && Cross(b, c, At(b, c, s)) == 0.0
    ensures Cross(a, b, At(b, c, s)) == Times(Cross(a, b, c), s) && Cross(b, c, At(b, a, s)) == Times(Cross(a, b, c), s)
  {
    CrossAtEnds(a, b);
    CrossAtEnds(b, c);
    CrossCycles(a, b, c);
    hide Cross, At;
    PartOfArea(a, b, b, a, s);
    PartOfArea(a, b, b, c, s);
    PartOfArea(b, c, b, c, s);
    PartOfArea(b, c, b, a, s);
  }

  lemma Halved(a: Point, b: Point, p: Point, q: Point)
    requires Cross(a, b, q) == 0.0
    ensures Cross(a, b, At(p, q, 0.5)) == Cross(a, b, p) / 2.0
  {
    CrossAlong(a, b, p, q, 0.5);
    hide Cross, At;
  }

  /** A point on the same hand of two edges a-b and b-c, reached from a point of either without meeting the other. */
  ghost predicate SameHand(a: Point, b: Point, c: Point, s: real, z: Point) {
    && Cross(a, b, z) != 0.0 && Cross(b, c, z) != 0.0 && (Cross(a, b, z) > 0.0 <==> Cross(b, c, z) > 0.0)
    && !Meet(At(b, a, s), z, b, c) && !Meet(At(b, c, s), z, a, b)
  }

  /** A point on the same hand of both edges lies between them as seen from the corner, so it is such a point. */
  lemma HandIsSame(a: Point, b: Point, c: Point, s: real, z: Point)
    requires Cross(a, b, z) != 0.0 && Cross(b, c, z) != 0.0 && (Cross(a, b, z) > 0.0 <==> Cross(b, c, z) > 0.0) && 0.0 < s < 1.0
    ensures SameHand(a, b, c, s, z)
  {
    NotSame(a, b, z);
    CrossAtEnds(b, z);
    CrossCycles(a, b, z);
    OtherHand(b, z, c);
    SignOfTimes(Cross(b, z, a), s);
    SignOfTimes(Cross(b, z, c), s);
    hide Cross, At, Meet, Times;
    PartOfArea(b, z, b, a, s);
    PartOfArea(b, z, b, c, s);
    EitherSide(b, z, At(b, a, s), c);
    EitherSide(b, z, At(b, c, s), a);
    if Meet(At(b, c, s), z, a, b) { MeetReversed(At(b, c, s), z, b, a); }
  }

  lemma OtherHand(b: Point, z: Point, c: Point)
    ensures Cross(b, c, z) == -Cross(b, z, c)
  {
    CrossCycles(z, b, c);
    CrossSwaps(b, z, c);
  }

  lemma NotSame(a: Point, b: Point, z: Point)
    requires Cross(a, b, z) != 0.0
    ensures b != z
  {
    CrossAtEnds(a, b);
  }

  /** Where the ring turns, half-way between the edges is such a point. */
  lemma InTurn(a: Point, b: Point, c: Point, s: real)
    requires Cross(a, b, c) != 0.0 && 0.0 < s < 1.0
    ensures SameHand(a, b, c, s, At(At(b, a, s), At(b, c, s), 0.5))
  {
    var p, q := At(b, a, s), At(b, c, s);
    AtCorner(a, b, c, s);
    SignOfTimes(Cross(a, b, c), s);
    StepBackwards(p, q, 0.5);
    hide Cross, At, Meet, Times;
    Halved(a, b, q, p);
    Halved(b, c, p, q);
    HandIsSame(a, b, c, s, At(p, q, 0.5));
  }

  // -- straight on

  lemma OffSquare(rx: real, ry: real, s: real)
    requires s > 0.0 && (rx != 0.0 || ry != 0.0)
    ensures rx * (rx * s) - ry * (-ry * s) > 0.0
    ensures (-ry * s) * (-ry) - (rx * s) * (-rx) > 0.0
  {
    SquarePositive(rx);
    SquarePositive(ry);
    var n := Square(rx) + Square(ry);
    assert n > 0.0;
    SignOfProduct(n, s);
    assert rx * (rx * s) == Square(rx) * s && ry * (ry * s) == Square(ry) * s;
    assert ry * (-ry * s) == -(ry * (ry * s)) && (-ry * s) * (-ry) == ry * (ry * s) && (rx * s) * (-rx) == -(rx * (rx * s));
    assert n * s == Square(rx) * s + Square(ry) * s;
  }

  /** Beside the end of an edge: left of the edge, and its start is left of the line out to there. */
  lemma BesideEnd(a: Point, b: Point, s: real)
    requires a != b && s > 0.0
    ensures var z := Shifted(b, Across(a, b), s); Cross(a, b, z) > 0.0 && Cross(b, z, a) > 0.0
  {
    DifferentPoints(a, b);
    var rx, ry := b.x - a.x, b.y - a.y;
    OffSquare(rx, ry, s);
    var z := Shifted(b, Across(a, b), s);
    assert z.x - b.x == -ry * s && z.y - b.y == rx * s;
    BesideAreas(rx, ry, -ry * s, rx * s);
  }

  lemma BesideAreas(rx: real, ry: real, x: real, y: real)
    ensures rx * (y + ry) - ry * (x + rx) == rx * y - ry * x && x * (-ry) - y * (-rx) == x * (-ry) - y * (-rx)
  {
  }

  /** The ring goes straight on through b: c lies beyond b as seen from a. */
  lemma StraightOn(v: seq<Point>, i: nat) returns (t: real)
    requires Simple(v) && i < |v|
    requires var j := Next(|v|, i); Cross(v[i], v[j], EdgeEnd(v, j)) == 0.0
    ensures var j := Next(|v|, i); t < 0.0 && At(v[j], EdgeEnd(v, j), t) == v[i]
  {
    var j := Next(|v|, i);
    var a, b, c := v[i], v[j], EdgeEnd(v, j);
    EdgesHaveLength(v, i);
    EdgesHaveLength(v, j);
    CrossCycles(a, b, c);
    CollinearAt(b, c, a);
    t := Param(b, c, a);
    hide Cross, Param, PointOnSegment, At, SegmentsIntersect;
    VertexOffEdges(v, i, j);
    VertexOffEdges(v, Next(|v|, j), i);
    NotWithin(b, c, a, t);
  }

  lemma NotWithin(b: Point, c: Point, a: Point, t: real)
    requires At(b, c, t) == a && !PointOnSegment(a, b, c) && !PointOnSegment(c, a, b) && a != b
    ensures t < 0.0
  {
    OnSegmentExactly(a, b, c);
    OnReversed(c, a, b);
    OnSegmentExactly(c, b, a);
    Ends(b, c);
    Ends(b, a);
    hide PointOnSegment, At;
    if t > 1.0 {
      OnRay(b, c, a, t, 1.0);
      SmallerQuotient(1.0, t);
    }
  }

  /** Where the ring goes straight on, a point beside the corner is on the same hand of both edges. */
  lemma InStraight(a: Point, b: Point, c: Point, t: real, s: real)
    requires a != b && t < 0.0 && At(b, c, t) == a && 0.0 < s < 1.0
    ensures SameHand(a, b, c, s, Shifted(b, Across(a, b), s))
  {
    var z := Shifted(b, Across(a, b), s);
    BesideEnd(a, b, s);
    CrossAtEnds(b, z);
    OtherHand(b, z, c);
    SignOfTimes(Cross(b, z, c), t);
    hide Cross, At, Meet, Times, Shifted, Across;
    PartOfArea(b, z, b, c, t);
    HandIsSame(a, b, c, s, z);
  }

  // -- around the ring

  /** The point lies on the same hand of both edges at a corner, and within a box there that no other edge enters. */
  ghost predicate CornerPoint(v: seq<Point>, i: nat, s: real, z: Point, eps: real)
    requires i < |v|
  {
    var j := Next(|v|, i);
    && 0.0 < s < 1.0 && SameHand(v[i], v[j], EdgeEnd(v, j), s, z) && ClearOf(v, v[j], eps, |v|, {i, j})
    && Near(v[j], z, eps) && Near(v[j], At(v[j], v[i], s), eps) && Near(v[j], At(v[j], EdgeEnd(v, j), s), eps)
  }

  lemma StepIs(b: Point, a: Point, s: real)
    ensures Shifted(b, Direction(b, a), s) == At(b, a, s)
  {
    AtIsShift(b, a, 0.0, s);
    Ends(b, a);
    hide At, Shifted;
  }

  lemma CornerFound(v: seq<Point>, i: nat) returns (s: real, z: Point, eps: real)
    requires Simple(v) && i < |v|
    ensures CornerPoint(v, i, s, z, eps)
  {
    var j := Next(|v|, i);
    var a, b, c := v[i], v[j], EdgeEnd(v, j);
    EdgesHaveLength(v, i);
    eps := CornerBox(v, i);
    hide Simple, Shifted, Across, At, Near, ClearOf, Cross, SameHand, Direction;
    s := SmallSteps(b, Direction(b, a), Direction(b, c), Across(a, b), eps);
    StepIs(b, a, s);
    StepIs(b, c, s);
    if Cross(a, b, c) != 0.0 {
      z := At(At(b, a, s), At(b, c, s), 0.5);
      InTurn(a, b, c, s);
      StepStaysInBox(b, eps, At(b, a, s), At(b, c, s), 0.5);
    } else {
      z := Shifted(b, Across(a, b), s);
      var t := StraightOn(v, i);
      InStraight(a, b, c, t, s);
    }
  }

  /** The steps to a corner's point from both its edges. */
  lemma CornerSteps(v: seq<Point>, i: nat, s: real, z: Point, eps: real)
    requires i < |v| && CornerPoint(v, i, s, z, eps)
    ensures var j := Next(|v|, i);
            && OnlyMeets(v, j, At(v[i], EdgeEnd(v, i), 1.0 - s), z) && OnlyMeets(v, Next(|v|, j), At(v[j], EdgeEnd(v, j), s), z)
  {
    var j := Next(|v|, i);
    StepBackwards(v[j], v[i], s);
    assert {i, j} == {j, i};
    hide At, Near, ClearOf, Cross, Meet, OnlyMeets;
    MeetsOwnOnly(v, i, j, v[j], eps, At(v[j], v[i], s), z);
    MeetsOwnOnly(v, j, i, v[j], eps, At(v[j], EdgeEnd(v, j), s), z);
  }

  lemma CornerHands(v: seq<Point>, i: nat, s: real, z: Point, eps: real)
    requires i < |v| && CornerPoint(v, i, s, z, eps)
    ensures var j := Next(|v|, i); var (first, second) := (Cross(v[i], EdgeEnd(v, i), z), Cross(v[j], EdgeEnd(v, j), z));
            0.0 < s < 1.0 && first != 0.0 && second != 0.0 && (first > 0.0 <==> second > 0.0)
  {
    hide Cross, Meet, ClearOf, Near;
  }

  lemma ToldBefore(v: seq<Point>, i: nat, s: real, z: Point, eps: real)
    requires Simple(v) && i < |v| && CornerPoint(v, i, s, z, eps)
    ensures StrictlyInside(v, z) == (LeftIn(v, i) == (Cross(v[i], EdgeEnd(v, i), z) > 0.0))
  {
    hide *;
    CornerHands(v, i, s, z, eps);
    CornerSteps(v, i, s, z, eps);
    SideTold(v, i, 1.0 - s, z);
  }

  lemma ToldAfter(v: seq<Point>, i: nat, s: real, z: Point, eps: real)
    requires Simple(v) && i < |v| && CornerPoint(v, i, s, z, eps)
    ensures var j := Next(|v|, i); StrictlyInside(v, z) == (LeftIn(v, j) == (Cross(v[j], EdgeEnd(v, j), z) > 0.0))
  {
    hide *;
    CornerHands(v, i, s, z, eps);
    CornerSteps(v, i, s, z, eps);
    SideTold(v, Next(|v|, i), s, z);
  }

  lemma ToldTwice(v: seq<Point>, i: nat, s: real, z: Point, eps: real)
    requires Simple(v) && i < |v| && CornerPoint(v, i, s, z, eps)
    ensures LeftIn(v, i) == LeftIn(v, Next(|v|, i))
  {
    hide *;
    CornerHands(v, i, s, z, eps);
    ToldBefore(v, i, s, z, eps);
    ToldAfter(v, i, s, z, eps);
  }

  /** Neighbouring edges have the inner side on the same hand. */
  lemma NeighboursAgree(v: seq<Point>, i: nat)
    requires Simple(v) && i < |v|
    ensures LeftIn(v, i) == LeftIn(v, Next(|v|, i))
  {
    hide *;
    var s, z, eps := CornerFound(v, i);
    ToldTwice(v, i, s, z, eps);
  }

  lemma {:induction false} AllAgree(v: seq<Point>, i: nat)
    requires Simple(v) && i < |v|
    ensures LeftIn(v, i) == LeftIn(v, 0)
  {
    if i > 0 {
      AllAgree(v, i - 1);
      NeighboursAgree(v, i - 1);
    }
    hide Simple, LeftIn;
  }

  /** The inner side of every edge of a valid ring is the left one exactly if the signed area is positive. */
  lemma InnerSideIsTurn(v: seq<Point>, i: nat)
    requires Simple(v) && i < |v|
    ensures LeftIn(v, i) == CounterClockwise(v)
  {
    assert RingArea.InnerSide(v, LeftIn(v, 0)) by {
      hide Simple, LeftIn;
      forall k | 0 <= k < |v| ensures LeftIn(v, k) == LeftIn(v, 0) { AllAgree(v, k); }
    }
    hide Simple, CounterClockwise, LeftIn;
    RingArea.TurnOfInnerSide(v, LeftIn(v, 0));
    assert LeftIn(v, i) == LeftIn(v, 0);
  }
}
