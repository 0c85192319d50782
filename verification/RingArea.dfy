/** The turn of a valid ring: its signed area is positive exactly if the left sides of its edges are the inner ones. */
module RingArea {
  import opened ClearanceRoots
  import opened Segments
  import opened SegmentMeetings
  import opened Rings
  import opened RingParity
  import opened RingOverlap
  import opened RingPasses
  import opened RingSides

  // -- where an edge passes a height

  predicate Straddles(a: Point, b: Point, y: real) { (b.y > y) != (a.y > y) }

  /** Where the line through a and b is at a height. */
  function PlaceAt(a: Point, b: Point, y: real): real
    requires a.y != b.y
  {
    b.x + (a.x - b.x) * (y - b.y) / (a.y - b.y)
  }

  function Slope(a: Point, b: Point): real
    requires a.y != b.y
  {
    (a.x - b.x) / (a.y - b.y)
  }

  lemma PlaceIsAffine(a: Point, b: Point, y: real)
    requires a.y != b.y
    ensures PlaceAt(a, b, y) == b.x + Times(Slope(a, b), y - b.y) && Times(Slope(a, b), a.y - b.y) == a.x - b.x
  {
    var h, d, u := a.y - b.y, a.x - b.x, y - b.y;
    QuotientTimes(h, d);
    QuotientTimes(h, d * u);
    assert h * ((d / h) * u) == (h * (d / h)) * u;
    CancelFactor(h, (d / h) * u, d * u / h);
    assert (d / h) * h == d;
  }

  lemma PlaceIsOnEdge(a: Point, b: Point, y: real) returns (t: real)
    requires (a.y < y < b.y) || (b.y < y < a.y)
    ensures 0.0 < t < 1.0 && At(a, b, t) == Point(PlaceAt(a, b, y), y)
  {
    var h := b.y - a.y;
    t := (y - a.y) / h;
    QuotientTimes(h, y - a.y);
    QuotientWithin(h, y - a.y, t);
    PlaceIsAffine(a, b, y);
    hide PlaceAt, Slope;
    SlopeTimes(Slope(a, b), a.x, a.y, b.x, b.y, y, t);
  }

  lemma SlopeTimes(k: real, ax: real, ay: real, bx: real, high: real, y: real, t: real)
    requires Times(k, ay - high) == ax - bx && (high - ay) * t == y - ay
    ensures ax + (bx - ax) * t == bx + Times(k, y - high)
  {
    assert (bx - ax) * t == k * ((high - ay) * t);
    assert k * (y - ay) == k * (y - high) - k * (ay - high);
  }

  lemma QuotientWithin(h: real, n: real, t: real)
    requires h * t == n && ((0.0 < n < h) || (h < n < 0.0))
    ensures 0.0 < t < 1.0
  {
    SignOfProduct(h, t);
    SignOfProduct(h, t - 1.0);
    assert h * (t - 1.0) == n - h;
  }

  // -- the passes of a height

  function PassAt(v: seq<Point>, i: nat, y: real): Pass
    requires i < |v| && Straddles(Before(v, i), v[i], y)
  {
    Pass(PlaceAt(Before(v, i), v[i], y), Before(v, i).y < v[i].y)
  }

  /** The passes of a height by the first n edges, in the order of the ring. */
  function Passes(v: seq<Point>, y: real, n: nat): seq<Pass>
    requires n <= |v|
  {
    if n == 0 then [] else Passes(v, y, n - 1) + (if Straddles(Before(v, n - 1), v[n - 1], y) then [PassAt(v, n - 1, y)] else [])
  }

  lemma {:induction false} PassesRight(v: seq<Point>, x: real, y: real, n: nat)
    requires n <= |v|
    ensures Even(RightOf(Passes(v, y, n), x)) != Parity(v, Point(x, y), n)
  {
    hide *;
    NoPass(v, x, y);
    if n > 0 {
      PassesRight(v, x, y, n - 1);
      LastPass(v, y, n);
      LastRay(v, Point(x, y), n);
      PassIsRay(v, n - 1, x, y);
      EvenOdd(RightOf(Passes(v, y, n - 1), x));
      if Straddles(Before(v, n - 1), v[n - 1], y) { LastRight(Passes(v, y, n - 1), PassAt(v, n - 1, y), x); }
    }
  }

  lemma NoPass(v: seq<Point>, x: real, y: real)
    ensures Even(RightOf(Passes(v, y, 0), x)) && !Parity(v, Point(x, y), 0)
  {
  }

  lemma LastPass(v: seq<Point>, y: real, n: nat)
    requires 1 <= n <= |v|
    ensures Straddles(Before(v, n - 1), v[n - 1], y) ==> Passes(v, y, n) == Passes(v, y, n - 1) + [PassAt(v, n - 1, y)]
    ensures !Straddles(Before(v, n - 1), v[n - 1], y) ==> Passes(v, y, n) == Passes(v, y, n - 1)
  {
  }

  lemma LastRight(s: seq<Pass>, p: Pass, x: real)
    ensures RightOf(s + [p], x) == RightOf(s, x) + (if p.x > x then 1 else 0)
  {
    assert (s + [p])[..|s|] == s;
  }

  lemma LastTotal(s: seq<Pass>, p: Pass)
    ensures Total(s + [p]) == Total(s) + Signed(p)
  {
    assert (s + [p])[..|s|] == s;
  }

  lemma PassIsRay(v: seq<Point>, i: nat, x: real, y: real)
    requires i < |v|
    ensures RayCrosses(v[i], Before(v, i), Point(x, y)) <==> Straddles(Before(v, i), v[i], y) && x < PassAt(v, i, y).x
  {
    RayIsPlace(Before(v, i), v[i], x, y);
    hide RayCrosses, PlaceAt;
  }

  lemma RayIsPlace(a: Point, b: Point, x: real, y: real)
    ensures RayCrosses(b, a, Point(x, y)) <==> Straddles(a, b, y) && x < PlaceAt(a, b, y)
  {
  }

  lemma {:induction false} PassOf(v: seq<Point>, y: real, n: nat, p: Pass) returns (i: nat)
    requires n <= |v| && p in Passes(v, y, n)
    ensures i < n && Straddles(Before(v, i), v[i], y) && p == PassAt(v, i, y)
  {
    hide PassAt;
    if p in Passes(v, y, n - 1) { i := PassOf(v, y, n - 1, p); } else { i := n - 1; }
  }

  /** No vertex has this height. */
  predicate Between(v: seq<Point>, y: real) { forall i :: 0 <= i < |v| ==> v[i].y != y }

  /** A pass is an inner point of its edge. */
  lemma PassPoint(v: seq<Point>, y: real, k: nat) returns (i: nat, t: real)
    requires Between(v, y) && k < |v| && Straddles(Before(v, k), v[k], y)
    ensures i < |v| && Next(|v|, i) == k && v[i] == Before(v, k) && EdgeEnd(v, i) == v[k]
    ensures 0.0 < t < 1.0 && At(v[i], EdgeEnd(v, i), t) == Point(PassAt(v, k, y).x, y)
  {
    i := LastVertexBefore(v, k);
    assert v[i].y != y && v[k].y != y;
    t := PlaceIsOnEdge(v[i], v[k], y);
    hide PlaceAt;
  }

  /** Two edges do not pass a height at the same place. */
  lemma PassesDiffer(v: seq<Point>, y: real, j: nat, k: nat)
    requires Simple(v) && Between(v, y) && j < |v| && k < |v| && j != k
    requires Straddles(Before(v, j), v[j], y) && Straddles(Before(v, k), v[k], y)
    ensures PassAt(v, j, y).x != PassAt(v, k, y).x
  {
    var i, t := PassPoint(v, y, j);
    var h, u := PassPoint(v, y, k);
    hide Simple, Straddles, PassAt, At;
    InnerPointsOnOneEdge(v, i, t);
    OnSegmentExactly(At(v[h], EdgeEnd(v, h), u), v[h], EdgeEnd(v, h));
    hide PointOnSegment;
  }

  lemma {:induction false} PassesDistinct(v: seq<Point>, y: real, n: nat)
    requires Simple(v) && Between(v, y) && n <= |v|
    ensures Distinct(Passes(v, y, n))
  {
    if n > 0 {
      PassesDistinct(v, y, n - 1);
      hide Simple, Between, PassAt;
      if Straddles(Before(v, n - 1), v[n - 1], y) {
        var s := Passes(v, y, n - 1);
        forall i | 0 <= i < |s| ensures s[i].x != PassAt(v, n - 1, y).x {
          var k := PassOf(v, y, n - 1, s[i]);
          PassesDiffer(v, y, k, n - 1);
        }
      }
    }
  }

  /** On every edge the inner side is the left one, or on every edge the right one. */
  predicate InnerSide(v: seq<Point>, left: bool) { forall i :: 0 <= i < |v| ==> LeftIn(v, i) == left }

  lemma PassAlternates(v: seq<Point>, left: bool, y: real, k: nat)
    requires Simple(v) && Between(v, y) && InnerSide(v, left) && k < |v| && Straddles(Before(v, k), v[k], y)
    ensures var p := PassAt(v, k, y); p.up == left <==> !Parity(v, Point(p.x, y), |v|)
  {
    var i, t := PassPoint(v, y, k);
    var z := Point(PassAt(v, k, y).x, y);
    RestAlongEdge(v, i, t, 0.5);
    RestAndEdge(v, k, z, |v|);
    PassIsRay(v, k, z.x, y);
    assert LeftIn(v, i) == left;
    hide Simple, InnerSide, Between, PlaceAt, Rest, Parity, RayCrosses, At, Before, EdgeEnd;
  }

  lemma PassesAlternate(v: seq<Point>, left: bool, y: real)
    requires Simple(v) && Between(v, y) && InnerSide(v, left)
    ensures Alternate(Passes(v, y, |v|), left)
  {
    var s := Passes(v, y, |v|);
    AlternateMeaning(s, left);
    hide *;
    forall q | q in s ensures q.up == left <==> Even(RightOf(s, q.x)) {
      var k := PassOf(v, y, |v|, q);
      PassAlternates(v, left, y, k);
      PassesRight(v, q.x, y, |v|);
    }
  }

  lemma {:induction false} AllRight(s: seq<Pass>, x: real)
    requires forall q :: q in s ==> q.x > x
    ensures RightOf(s, x) == |s|
  {
    if s != [] { AllRight(s[..|s| - 1], x); }
  }

  /** A place left of every vertex is left of every pass. */
  lemma LeftOfPasses(v: seq<Point>, y: real, x: real, k: nat)
    requires Between(v, y) && (forall i :: 0 <= i < |v| ==> v[i].x > x) && k < |v| && Straddles(Before(v, k), v[k], y)
    ensures PassAt(v, k, y).x > x
  {
    var i, t := PassPoint(v, y, k);
    BetweenCoordinates(v[i].x, v[k].x, t);
    AtAlong(v[i], v[k], t);
    hide At, PassAt;
  }

  lemma {:induction false} LeftOfVertices(v: seq<Point>, n: nat) returns (x: real)
    requires n <= |v|
    ensures forall i :: 0 <= i < n ==> v[i].x > x
  {
    x := 0.0;
    if n > 0 {
      var y := LeftOfVertices(v, n - 1);
      x := Min(y, v[n - 1].x - 1.0);
    }
  }

  lemma PassesEven(v: seq<Point>, y: real)
    requires Between(v, y) && v != []
    ensures Even(|Passes(v, y, |v|)|)
  {
    var x := LeftOfVertices(v, |v|);
    var z := Point(x, y);
    assert Beside(v, z);
    FarIsOutside(v, z);
    BesideIsOffBoundary(v, z);
    PassesRight(v, x, y, |v|);
    hide Straddles, PassAt, Parity, Even, OnBoundary;
    forall q | q in Passes(v, y, |v|) ensures q.x > x {
      var k := PassOf(v, y, |v|, q);
      LeftOfPasses(v, y, x, k);
    }
    AllRight(Passes(v, y, |v|), x);
    hide Passes;
  }

  /** At a height between the vertices the passes' places add up to the side of the inner side. */
  lemma PassesAddUp(v: seq<Point>, left: bool, y: real)
    requires Simple(v) && Between(v, y) && InnerSide(v, left)
    ensures if left then Total(Passes(v, y, |v|)) >= 0.0 else Total(Passes(v, y, |v|)) <= 0.0
  {
    assert v != [];
    hide *;
    PassesDistinct(v, y, |v|);
    PassesAlternate(v, left, y);
    PassesEven(v, y);
    PairsAddUp(Passes(v, y, |v|), left);
  }

  // -- the area below a height

  /** Twice the signed area between the axis and the part of the edge below a height. */
  function Under(a: Point, b: Point, y: real): real {
    if a.y == b.y then 0.0
    else Times(PlaceAt(a, b, Min(a.y, y)) + PlaceAt(a, b, Min(b.y, y)), Min(b.y, y) - Min(a.y, y))
  }

  function UnderRing(v: seq<Point>, y: real, n: nat): real
    requires n <= |v|
  {
    if n == 0 then 0.0 else UnderRing(v, y, n - 1) + Under(Before(v, n - 1), v[n - 1], y)
  }

  lemma Strip(c: real, k: real, e: real, low: real, high: real)
    ensures Times((c + Times(k, e)) + (c + Times(k, high)), high - e) - Times((c + Times(k, e)) + (c + Times(k, low)), low - e)
         == Times(high - low, 2.0 * (c + Times(k, (low + high) / 2.0)))
    ensures Times((c + Times(k, e)) + (c + Times(k, high)), e - high) == -Times((c + Times(k, e)) + (c + Times(k, high)), high - e)
    ensures Times((c + Times(k, e)) + (c + Times(k, low)), e - low) == -Times((c + Times(k, e)) + (c + Times(k, low)), low - e)
  {
    var p, q, r := k * e, k * high, k * low;
    assert (c + p + c + q) * (high - e) == 2.0 * c * (high - e) + p * high - p * e + q * high - q * e;
    assert (c + p + c + r) * (low - e) == 2.0 * c * (low - e) + p * low - p * e + r * low - r * e;
    assert p * high == q * e && p * low == r * e;
    StripMiddle(c, k, low, high);
  }

  lemma StripMiddle(c: real, k: real, low: real, high: real)
    ensures (high - low) * (2.0 * (c + k * ((low + high) / 2.0))) == 2.0 * c * (high - low) + (k * high) * high - (k * low) * low
  {
    assert 2.0 * (c + k * ((low + high) / 2.0)) == 2.0 * c + k * low + k * high;
    assert (high - low) * (k * low + k * high) == (k * high) * high - (k * low) * low;
  }

  lemma PlaceFrom(a: Point, b: Point) returns (c: real, k: real)
    requires a.y != b.y
    ensures forall y :: PlaceAt(a, b, y) == c + Times(k, y)
  {
    k := Slope(a, b);
    c := b.x - Times(k, b.y);
    hide PlaceAt, Slope;
    forall y ensures PlaceAt(a, b, y) == c + Times(k, y) {
      PlaceIsAffine(a, b, y);
      TimesApart(k, y, b.y);
    }
  }

  lemma TimesApart(k: real, x: real, y: real)
    ensures Times(k, x - y) == Times(k, x) - Times(k, y)
  {
  }

  /** Nothing ends strictly between the heights. */
  predicate Clear(p: Point, low: real, high: real) { p.y <= low || high <= p.y }

  /** What an edge adds between two heights is its place half-way, if it passes there. */
  lemma UnderStrip(a: Point, b: Point, low: real, high: real)
    requires low < high && Clear(a, low, high) && Clear(b, low, high)
    ensures var m := (low + high) / 2.0;
            var place := if Straddles(a, b, m) then Signed(Pass(PlaceAt(a, b, m), a.y < b.y)) else 0.0;
            Under(a, b, high) - Under(a, b, low) == Times(high - low, 2.0 * place)
  {
    NoHeight(high - low);
    if a.y != b.y {
      var c, k := PlaceFrom(a, b);
      hide PlaceAt;
      if a.y <= low && b.y <= low {
      } else if a.y >= high && b.y >= high {
        NoHeight(PlaceAt(a, b, high) + PlaceAt(a, b, high));
        NoHeight(PlaceAt(a, b, low) + PlaceAt(a, b, low));
      } else {
        var e := if a.y <= low then a.y else b.y;
        Strip(c, k, e, low, high);
        Opposite(high - low, 2.0 * PlaceAt(a, b, (low + high) / 2.0));
        hide Times;
      }
    }
  }

  lemma NoHeight(x: real)
    ensures Times(x, 0.0) == 0.0
  {
  }

  lemma Opposite(x: real, y: real)
    ensures Times(x, -y) == -Times(x, y)
  {
  }

  ghost predicate NothingEnds(v: seq<Point>, low: real, high: real) { forall i :: 0 <= i < |v| ==> Clear(v[i], low, high) }

  lemma {:induction false} StripsAddUp(v: seq<Point>, low: real, high: real, n: nat)
    requires n <= |v| && low < high && NothingEnds(v, low, high)
    ensures UnderRing(v, high, n) - UnderRing(v, low, n) == Times(high - low, 2.0 * Total(Passes(v, (low + high) / 2.0, n)))
  {
    hide *;
    NothingYet(v, low, high);
    if n > 0 {
      StripsAddUp(v, low, high, n - 1);
      EdgeStrip(v, low, high, n - 1);
      TotalGrows(v, (low + high) / 2.0, n);
      UnderRingGrows(v, low, n);
      UnderRingGrows(v, high, n);
      SumOfTimes(high - low, Total(Passes(v, (low + high) / 2.0, n - 1)), SignedAt(v, (low + high) / 2.0, n - 1));
    }
  }

  lemma NothingYet(v: seq<Point>, low: real, high: real)
    ensures UnderRing(v, high, 0) == 0.0 && UnderRing(v, low, 0) == 0.0
    ensures forall y :: Times(high - low, 2.0 * Total(Passes(v, y, 0))) == 0.0
  {
    forall y ensures Times(high - low, 2.0 * Total(Passes(v, y, 0))) == 0.0 { NoHeight(high - low); }
  }

  lemma EdgeStrip(v: seq<Point>, low: real, high: real, i: nat)
    requires i < |v| && low < high && NothingEnds(v, low, high)
    ensures Under(Before(v, i), v[i], high) - Under(Before(v, i), v[i], low) == Times(high - low, 2.0 * SignedAt(v, (low + high) / 2.0, i))
  {
    assert Clear(v[i], low, high) && Clear(Before(v, i), low, high);
    UnderStrip(Before(v, i), v[i], low, high);
    hide Under, Straddles, Clear, Times, PlaceAt, NothingEnds;
  }

  lemma UnderRingGrows(v: seq<Point>, y: real, n: nat)
    requires 1 <= n <= |v|
    ensures UnderRing(v, y, n) == UnderRing(v, y, n - 1) + Under(Before(v, n - 1), v[n - 1], y)
  {
    hide Under;
  }

  /** The place where edge i passes the height, counted by its direction; nothing if it does not pass. */
  function SignedAt(v: seq<Point>, y: real, i: nat): real
    requires i < |v|
  {
    if Straddles(Before(v, i), v[i], y) then Signed(PassAt(v, i, y)) else 0.0
  }

  lemma TotalGrows(v: seq<Point>, y: real, n: nat)
    requires 1 <= n <= |v|
    ensures Total(Passes(v, y, n)) == Total(Passes(v, y, n - 1)) + SignedAt(v, y, n - 1)
  {
    LastPass(v, y, n);
    hide Passes, Straddles, PassAt, Total, Signed;
    if Straddles(Before(v, n - 1), v[n - 1], y) { LastTotal(Passes(v, y, n - 1), PassAt(v, n - 1, y)); }
  }

  lemma SumOfTimes(x: real, y: real, z: real)
    ensures Times(x, 2.0 * (y + z)) == Times(x, 2.0 * y) + Times(x, 2.0 * z)
  {
  }

  /** The vertices strictly between two heights. */
  function EndsBetween(v: seq<Point>, low: real, high: real): set<nat> { set i | 0 <= i < |v| && low < v[i].y < high }

  lemma FewerBetween(v: seq<Point>, low: real, middle: real, high: real, i: nat)
    requires low < middle < high && i < |v| && v[i].y == middle
    ensures |EndsBetween(v, low, middle)| < |EndsBetween(v, low, high)| && |EndsBetween(v, middle, high)| < |EndsBetween(v, low, high)|
  {
    assert EndsBetween(v, low, middle) + {i} <= EndsBetween(v, low, high);
    assert EndsBetween(v, middle, high) + {i} <= EndsBetween(v, low, high);
    Fewer(EndsBetween(v, low, middle), i, EndsBetween(v, low, high));
    Fewer(EndsBetween(v, middle, high), i, EndsBetween(v, low, high));
  }

  lemma {:induction false} Fewer(s: set<nat>, i: nat, t: set<nat>)
    requires i !in s && s + {i} <= t
    ensures |s| < |t|
  {
    var rest := t - (s + {i});
    assert t == (s + {i}) + rest && |s + {i}| == |s| + 1;
  }

  lemma BetweenEnds(v: seq<Point>, low: real, high: real)
    requires low < high && NothingEnds(v, low, high)
    ensures Between(v, (low + high) / 2.0)
  {
    forall i | 0 <= i < |v| ensures v[i].y != (low + high) / 2.0 { assert Clear(v[i], low, high); }
  }

  lemma UnderStep(v: seq<Point>, left: bool, low: real, high: real)
    requires Simple(v) && InnerSide(v, left) && low < high && NothingEnds(v, low, high)
    ensures if left then UnderRing(v, high, |v|) >= UnderRing(v, low, |v|) else UnderRing(v, high, |v|) <= UnderRing(v, low, |v|)
  {
    hide *;
    BetweenEnds(v, low, high);
    StripsAddUp(v, low, high, |v|);
    PassesAddUp(v, left, (low + high) / 2.0);
    SignOfWidth(high - low, Total(Passes(v, (low + high) / 2.0, |v|)));
  }

  lemma SignOfWidth(x: real, y: real)
    requires x > 0.0
    ensures (y >= 0.0 ==> Times(x, 2.0 * y) >= 0.0) && (y <= 0.0 ==> Times(x, 2.0 * y) <= 0.0)
  {
    SignOfProduct(x, 2.0 * y);
  }

  /** The area below a height grows with the height if the inner side is the left one, and falls otherwise. */
  lemma {:induction false} UnderGrows(v: seq<Point>, left: bool, low: real, high: real)
    requires Simple(v) && InnerSide(v, left) && low <= high
    ensures if left then UnderRing(v, high, |v|) >= UnderRing(v, low, |v|) else UnderRing(v, high, |v|) <= UnderRing(v, low, |v|)
    decreases |EndsBetween(v, low, high)|
  {
    hide Simple, InnerSide, UnderRing, EndsBetween;
    if i: nat :| i < |v| && low < v[i].y < high {
      FewerBetween(v, low, v[i].y, high, i);
      UnderGrows(v, left, low, v[i].y);
      UnderGrows(v, left, v[i].y, high);
    } else if low < high {
      UnderStep(v, left, low, high);
    }
  }

  lemma {:induction false} NothingUnder(v: seq<Point>, low: real, n: nat)
    requires n <= |v| && forall i :: 0 <= i < |v| ==> low <= v[i].y
    ensures UnderRing(v, low, n) == 0.0
  {
    if n > 0 {
      NothingUnder(v, low, n - 1);
      var a, b := Before(v, n - 1), v[n - 1];
      hide PlaceAt;
      if a.y != b.y { NoHeight(PlaceAt(a, b, low) + PlaceAt(a, b, low)); }
      hide Times;
    }
  }

  /** Twice the signed area of the triangle to the origin. */
  function Spanned(a: Point, b: Point): real { a.x * b.y - a.y * b.x }

  function Corner(a: Point): real { a.x * a.y }

  lemma WholeEdge(a: Point, b: Point, high: real)
    requires a.y <= high && b.y <= high
    ensures Under(a, b, high) == Spanned(a, b) + Corner(b) - Corner(a)
  {
    if a.y != b.y {
      PlaceIsAffine(a, b, a.y);
      PlaceIsAffine(a, b, b.y);
      NoHeight(Slope(a, b));
      hide PlaceAt, Slope;
    }
    assert (a.x + b.x) * (b.y - a.y) == (a.x * b.y - a.y * b.x) + (b.x * b.y - a.x * a.y);
  }

  lemma {:induction false} AllUnder(v: seq<Point>, high: real, n: nat)
    requires 1 <= n <= |v| && forall i :: 0 <= i < |v| ==> v[i].y <= high
    ensures var last := v[|v| - 1];
            UnderRing(v, high, n) == Spanned(last, v[0]) + TwiceArea(v, n - 1) + Corner(v[n - 1]) - Corner(last)
  {
    hide Under, Spanned, Corner, TwiceArea;
    WholeEdge(Before(v, n - 1), v[n - 1], high);
    if n > 1 {
      AllUnder(v, high, n - 1);
      assert EdgeEnd(v, n - 2) == v[n - 1];
      AreaGrows(v, n - 1);
    } else {
      assert UnderRing(v, high, 0) == 0.0;
      AreaStarts(v);
    }
  }

  lemma AreaStarts(v: seq<Point>)
    ensures TwiceArea(v, 0) == 0.0
  {
  }

  lemma AreaGrows(v: seq<Point>, n: nat)
    requires 1 <= n <= |v|
    ensures TwiceArea(v, n) == TwiceArea(v, n - 1) + Spanned(v[n - 1], EdgeEnd(v, n - 1))
  {
  }

  /** Twice the signed area of the triangles that z spans with the first n edges. */
  function Fan(v: seq<Point>, z: Point, n: nat): real
    requires n <= |v|
  {
    if n == 0 then 0.0 else Fan(v, z, n - 1) + Cross(v[n - 1], EdgeEnd(v, n - 1), z)
  }

  lemma FanStep(a: Point, b: Point, z: Point)
    ensures Cross(a, b, z) == Spanned(a, b) + Spanned(b, z) - Spanned(a, z)
  {
    AreaIdentity(a.x, a.y, b.x, b.y, z.x, z.y);
  }

  lemma {:induction false} FanAddsUp(v: seq<Point>, z: Point, n: nat)
    requires 1 <= n <= |v|
    ensures Fan(v, z, n) == TwiceArea(v, n) + Spanned(EdgeEnd(v, n - 1), z) - Spanned(v[0], z)
  {
    hide Cross, Spanned, TwiceArea;
    FanStep(v[n - 1], EdgeEnd(v, n - 1), z);
    AreaGrows(v, n);
    if n > 1 {
      FanAddsUp(v, z, n - 1);
      assert EdgeEnd(v, n - 2) == v[n - 1];
    } else {
      AreaStarts(v);
      assert Fan(v, z, 0) == 0.0;
    }
  }

  /** The signed area is the same measured from any point. */
  lemma AreaFromAnywhere(v: seq<Point>, z: Point)
    requires v != []
    ensures Fan(v, z, |v|) == TwiceArea(v, |v|)
  {
    FanAddsUp(v, z, |v|);
    hide Fan, TwiceArea, Spanned;
  }

  /** Above every vertex the whole signed area is counted. */
  lemma WholeArea(v: seq<Point>, high: real)
    requires v != [] && forall i :: 0 <= i < |v| ==> v[i].y <= high
    ensures UnderRing(v, high, |v|) == TwiceArea(v, |v|)
  {
    AllUnder(v, high, |v|);
    AreaGrows(v, |v|);
    hide UnderRing, TwiceArea, Spanned, Corner;
  }

  /** A valid ring whose inner side is the same everywhere turns counter-clockwise exactly if that is the left side. */
  lemma TurnOfInnerSide(v: seq<Point>, left: bool)
    requires Simple(v) && InnerSide(v, left)
    ensures CounterClockwise(v) == left
  {
    assert v != [] && TwiceArea(v, |v|) != 0.0;
    var low, high := Lowest(Ys(v)), Highest(Ys(v));
    forall i | 0 <= i < |v| ensures low <= v[i].y <= high { LowestBelow(Ys(v), i); }
    assert low <= v[0].y <= high;
    hide Simple, InnerSide, UnderRing, TwiceArea, Lowest, Highest, Ys;
    NothingUnder(v, low, |v|);
    WholeArea(v, high);
    UnderGrows(v, left, low, high);
  }
}
