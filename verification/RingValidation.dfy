/** What the ring constructor accepts, and the closed containment test. */
module RingValidation {
  import opened Common
  import opened Segments
  import opened Rings
  import opened RingOverlap
  import RingArea
  import RingDecision

  datatype RingError = TooFewVertices | RepeatsPredecessor(index: nat) | LastRepeatsFirst | SelfIntersects | NoArea

  predicate Repeats(v: seq<Point>, i: nat)
    requires i < |v|
  {
    i >= 1 && v[i] == v[i - 1]
  }

  /** The edges intersect without being neighbours. */
  predicate Tangled(v: seq<Point>, i: nat, k: nat)
    requires i < k < |v|
  {
    !Neighbours(|v|, i, k) && SegmentsIntersect(v[i], EdgeEnd(v, i), v[k], EdgeEnd(v, k))
  }

  ghost predicate SelfIntersecting(v: seq<Point>) { exists i, k :: 0 <= i < k < |v| && Tangled(v, i, k) }

  method IntersectsItself(v: seq<Point>) returns (found: bool)
    ensures found == SelfIntersecting(v)
  {
    hide SegmentsIntersect;
    var count := |v|;
    for first := 0 to count
      invariant forall i, k :: 0 <= i < first && i < k < |v| ==> !Tangled(v, i, k)
    {
      for second := first + 1 to count
        invariant forall k :: first < k < second ==> !Tangled(v, first, k)
      {
        if second == first + 1 || (first == 0 && second == count - 1) { continue; }
        if SegmentsIntersect(v[first], EdgeEnd(v, first), v[second], EdgeEnd(v, second)) {
          assert Tangled(v, first, second);
          return true;
        }
      }
    }
    found := false;
  }

  lemma Anchored(o: Point, a: Point, b: Point)
    ensures (a.x - o.x) * (b.y - o.y) - (a.y - o.y) * (b.x - o.x) == Cross(a, b, o)
  {
    CrossCycles(o, a, b);
  }

  /** Summed from the first vertex as origin; the signed area does not depend on that. */
  method TwiceSignedArea(v: seq<Point>) returns (total: real)
    requires v != []
    ensures total == TwiceArea(v, |v|)
  {
    hide Cross, TwiceArea;
    total := 0.0;
    var origin := v[0];
    for index := 0 to |v|
      invariant total == RingArea.Fan(v, origin, index)
    {
      var a, b := v[index], EdgeEnd(v, index);
      Anchored(origin, a, b);
      total := total + ((a.x - origin.x) * (b.y - origin.y) - (a.y - origin.y) * (b.x - origin.x));
    }
    RingArea.AreaFromAnywhere(v, origin);
  }

  lemma SimpleExactly(v: seq<Point>)
    ensures Simple(v) <==> IsRing(v) && !SelfIntersecting(v) && TwiceArea(v, |v|) != 0.0
  {
    hide SegmentsIntersect, IsRing, TwiceArea;
    if IsRing(v) && SelfIntersecting(v) {
      var i, k :| 0 <= i < k < |v| && Tangled(v, i, k);
    }
    if IsRing(v) && !SelfIntersecting(v) {
      forall i, k | 0 <= i < k < |v| && !Neighbours(|v|, i, k) ensures !SegmentsIntersect(v[i], EdgeEnd(v, i), v[k], EdgeEnd(v, k)) {
        assert !Tangled(v, i, k);
      }
    }
  }

  /** Exactly the valid rings are accepted; otherwise the first check that fails names the error. */
  method Validate(v: seq<Point>) returns (error: Option<RingError>)
    ensures error == None <==> Simple(v)
    ensures error == Some(TooFewVertices) <==> |v| < 3
    ensures forall i: nat :: error == Some(RepeatsPredecessor(i)) <==> |v| >= 3 && i < |v| && Repeats(v, i) && forall k :: 0 <= k < i ==> !Repeats(v, k)
    ensures error == Some(LastRepeatsFirst) <==> |v| >= 3 && v[0] == v[|v| - 1] && forall i :: 0 <= i < |v| ==> !Repeats(v, i)
    ensures error == Some(SelfIntersects) <==> IsRing(v) && SelfIntersecting(v)
    ensures error == Some(NoArea) <==> IsRing(v) && !SelfIntersecting(v) && TwiceArea(v, |v|) == 0.0
  {
    SimpleExactly(v);
    hide SegmentsIntersect, TwiceArea, Simple, SelfIntersecting;
    if |v| < 3 { return Some(TooFewVertices); }
    for index := 1 to |v|
      invariant forall i :: 0 <= i < index ==> !Repeats(v, i)
    {
      if v[index] == v[index - 1] {
        assert Repeats(v, index);
        return Some(RepeatsPredecessor(index));
      }
    }
    if v[0] == v[|v| - 1] { return Some(LastRepeatsFirst); }
    assert IsRing(v) by { forall i | 0 <= i < |v| - 1 ensures v[i] != v[i + 1] { assert !Repeats(v, i + 1); } }
    hide IsRing;
    var intersects := IntersectsItself(v);
    if intersects { return Some(SelfIntersects); }
    var total := TwiceSignedArea(v);
    error := if total == 0.0 then Some(NoArea) else None;
  }

  // -- closed containment

  lemma BoundaryInBounds(v: seq<Point>, p: Point)
    requires OnBoundary(v, p)
    ensures v != [] && RingDecision.InBounds(v, p)
  {
    hide Orientation;
    var i :| 0 <= i < |v| && PointOnSegment(p, v[i], EdgeEnd(v, i));
    RingDecision.WithinBounds(v, i, p);
  }

  /** The closed test, with its early exit by bounds: on the boundary or strictly inside. */
  method Contains(v: seq<Point>, p: Point) returns (inside: bool)
    requires v != []
    ensures inside <==> OnBoundary(v, p) || StrictlyInside(v, p)
  {
    hide PointOnSegment, RayCrosses;
    if !RingDecision.InBounds(v, p) {
      if OnBoundary(v, p) { BoundaryInBounds(v, p); }
      if StrictlyInside(v, p) { InsideBounds(v, p); }
      return false;
    }
    for i := 0 to |v|
      invariant forall k :: 0 <= k < i ==> !PointOnSegment(p, v[k], EdgeEnd(v, k))
    {
      if PointOnSegment(p, v[i], EdgeEnd(v, i)) { return true; }
    }
    inside := false;
    var previous := |v| - 1;
    for index := 0 to |v|
      invariant previous == if index == 0 then |v| - 1 else index - 1
      invariant inside == Parity(v, p, index)
    {
      if RayCrosses(v[index], v[previous], p) { inside := !inside; }
      previous := index;
    }
  }
}
