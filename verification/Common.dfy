/** Small datatypes and sequence facts shared by every component. */
module Common {

  datatype Option<+T> = None | Some(value: T) {
    function GetOr(default: T): T {
      match this
      case Some(v) => v
      case None => default
    }
  }

  datatype Result<+T, +E> = Ok(value: T) | Err(error: E)

  /** x is the smallest element of s. */
  predicate IsLeast(s: set<nat>, x: nat) {
    x in s && forall y :: y in s ==> x <= y
  }

  lemma LeastExists(s: set<nat>)
    requires s != {}
    ensures exists x :: IsLeast(s, x)
  {
    var x :| x in s;
    var rest := s - {x};
    assert forall y :: y in s ==> y == x || y in rest;
    if rest == {} {
      assert IsLeast(s, x);
    } else {
      LeastExists(rest);
      var m :| IsLeast(rest, m);
      assert IsLeast(s, if x <= m then x else m);
    }
  }

  /** The elements of a finite set of naturals in increasing order. */
  function Ascending(s: set<nat>): (ids: seq<nat>)
    ensures forall x :: x in ids <==> x in s
    ensures forall i, j :: 0 <= i < j < |ids| ==> ids[i] < ids[j]
  {
    if s == {} then []
    else
      LeastExists(s);
      var x :| IsLeast(s, x);
      var rest := Ascending(s - {x});
      assert forall y :: y in rest ==> x < y by {
        assert forall y :: y in rest ==> y in s && y != x;
      }
      [x] + rest
  }

  // -- sets of reals in order

  predicate IsLeastReal(s: set<real>, x: real) { x in s && forall y :: y in s ==> x <= y }

  lemma RealMember(s: set<real>)
    ensures s == {} || exists x :: x in s
  {
    if forall x :: x !in s { assert s == {}; }
  }

  lemma {:induction false} LeastRealExists(s: set<real>)
    requires s != {}
    ensures exists x :: IsLeastReal(s, x)
  {
    RealMember(s);
    var x :| x in s;
    var rest := s - {x};
    assert forall y :: y in s ==> y == x || y in rest;
    if rest == {} {
      assert IsLeastReal(s, x);
    } else {
      LeastRealExists(rest);
      var m :| IsLeastReal(rest, m);
      assert IsLeastReal(s, if x <= m then x else m);
    }
  }

  function Sorted(s: set<real>): (ordered: seq<real>)
    ensures forall x :: x in ordered <==> x in s
    ensures forall i, j :: 0 <= i < j < |ordered| ==> ordered[i] < ordered[j]
  {
    if s == {} then []
    else
      LeastRealExists(s);
      var x :| IsLeastReal(s, x);
      var rest := Sorted(s - {x});
      assert forall y :: y in rest ==> x < y by {
        assert forall y :: y in rest ==> y in s && y != x;
      }
      [x] + rest
  }
}
