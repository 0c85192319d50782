/** Passes of a height, alternately up and down: which sign their places add up to. */
module RingPasses {

  /** Where an edge passes a height, and whether upwards. */
  datatype Pass = Pass(x: real, up: bool)

  function Signed(p: Pass): real { if p.up then p.x else -p.x }

  /** The upward passes' places less the downward passes' places. */
  function Total(s: seq<Pass>): real { if s == [] then 0.0 else Total(s[..|s| - 1]) + Signed(s[|s| - 1]) }

  /** How many passes lie right of x. */
  function RightOf(s: seq<Pass>, x: real): nat {
    if s == [] then 0 else RightOf(s[..|s| - 1], x) + (if s[|s| - 1].x > x then 1 else 0)
  }

  predicate Even(n: nat) { n % 2 == 0 }

  lemma EvenOdd(n: nat)
    ensures Even(n + 1) != Even(n) && Even(n + 2) == Even(n)
  {
  }

  ghost predicate Distinct(s: seq<Pass>) { forall i, j :: 0 <= i < j < |s| ==> s[i].x != s[j].x }

  /** Counted from the right the first, third, fifth pass are upward if `up`, the others downward. */
  ghost predicate Alternate(s: seq<Pass>, up: bool) {
    forall i :: 0 <= i < |s| ==> (s[i].up == up <==> Even(RightOf(s, s[i].x)))
  }

  function Removed(s: seq<Pass>, i: nat): seq<Pass>
    requires i < |s|
  {
    s[..i] + s[i + 1..]
  }

  lemma {:induction false} OneLess(s: seq<Pass>, i: nat, x: real)
    requires i < |s|
    ensures Total(s) == Total(Removed(s, i)) + Signed(s[i])
    ensures RightOf(s, x) == RightOf(Removed(s, i), x) + (if s[i].x > x then 1 else 0)
  {
    var n := |s| - 1;
    if i < n {
      var front := s[..n];
      OneLess(front, i, x);
      assert Removed(s, i) == Removed(front, i) + [s[n]];
      assert (Removed(front, i) + [s[n]])[..n - 1] == Removed(front, i);
    } else {
      assert Removed(s, i) == s[..n];
    }
  }

  lemma {:induction false} Rightmost(s: seq<Pass>) returns (i: nat)
    requires s != []
    ensures i < |s| && forall j :: 0 <= j < |s| ==> s[j].x <= s[i].x
  {
    i := |s| - 1;
    if |s| > 1 {
      var k := Rightmost(s[..|s| - 1]);
      if s[k].x > s[i].x { i := k; }
    }
  }

  lemma {:induction false} NoneRight(s: seq<Pass>, x: real)
    requires forall j :: 0 <= j < |s| ==> s[j].x <= x
    ensures RightOf(s, x) == 0
  {
    if s != [] { NoneRight(s[..|s| - 1], x); }
  }

  lemma StillDistinct(s: seq<Pass>, i: nat)
    requires Distinct(s) && i < |s|
    ensures Distinct(Removed(s, i)) && |Removed(s, i)| == |s| - 1
    ensures forall j :: 0 <= j < |s| - 1 ==> Removed(s, i)[j] in s && Removed(s, i)[j].x != s[i].x
  {
    forall j | 0 <= j < |s| - 1 ensures Removed(s, i)[j] in s && Removed(s, i)[j].x != s[i].x {
      assert Removed(s, i)[j] == s[if j < i then j else j + 1];
    }
  }

  /** The rightmost pass, and the passes without it. */
  lemma Taken(s: seq<Pass>) returns (p: Pass, rest: seq<Pass>)
    requires s != [] && Distinct(s)
    ensures p in s && Distinct(rest) && |rest| == |s| - 1 && Total(s) == Total(rest) + Signed(p) && RightOf(s, p.x) == 0
    ensures forall q :: q in rest ==> q in s && q.x < p.x && RightOf(s, q.x) == RightOf(rest, q.x) + 1
  {
    var i := Rightmost(s);
    p, rest := s[i], Removed(s, i);
    NoneRight(s, p.x);
    StillDistinct(s, i);
    OneLess(s, i, 0.0);
    hide Removed, Total, RightOf, Distinct;
    forall q | q in rest ensures q in s && q.x < p.x && RightOf(s, q.x) == RightOf(rest, q.x) + 1 {
      OneLess(s, i, q.x);
    }
  }

  lemma AlternateMeaning(s: seq<Pass>, up: bool)
    ensures Alternate(s, up) <==> forall q :: q in s ==> (q.up == up <==> Even(RightOf(s, q.x)))
  {
  }

  /** The two rightmost passes go opposite ways, and the others still alternate. */
  lemma PairTaken(s: seq<Pass>, up: bool) returns (p: Pass, q: Pass, rest: seq<Pass>)
    requires |s| >= 2 && Distinct(s) && Alternate(s, up)
    ensures p.up == up && q.up != up && q.x < p.x && Total(s) == Total(rest) + Signed(q) + Signed(p)
    ensures Distinct(rest) && Alternate(rest, up) && |rest| == |s| - 2
  {
    AlternateMeaning(s, up);
    var most;
    p, most := Taken(s);
    q, rest := Taken(most);
    AlternateMeaning(rest, up);
    EvenOdd(0);
    hide Alternate, Total, Distinct, RightOf, Signed, Even;
    assert q in most && RightOf(s, q.x) == 1;
    forall r | r in rest ensures r.up == up <==> Even(RightOf(rest, r.x)) {
      assert r in most && r in s && RightOf(s, r.x) == RightOf(rest, r.x) + 2;
      EvenOdd(RightOf(rest, r.x));
    }
  }

  /** An even number of passes that alternate from the right: the upper hand is with the direction of the rightmost. */
  lemma {:induction false} PairsAddUp(s: seq<Pass>, up: bool)
    requires Distinct(s) && Alternate(s, up) && Even(|s|)
    ensures s == [] ==> Total(s) == 0.0
    ensures s != [] ==> if up then Total(s) > 0.0 else Total(s) < 0.0
    decreases |s|
  {
    if s != [] {
      var p, q, rest := PairTaken(s, up);
      hide Alternate, Distinct;
      PairsAddUp(rest, up);
      hide Total;
    }
  }
}
