/** The first zero of a quadratic clearance on an interval, by the stable root formula. */
module ClearanceRoots {
  import opened Common

  function Clearance(quadratic: real, linear: real, constant: real, u: real): real {
    (quadratic * u + linear) * u + constant
  }

  /** A square root, known only by its defining property. */
  ghost predicate IsSquareRoot(sqrt: real -> real) {
    forall x: real :: x >= 0.0 ==> sqrt(x) >= 0.0 && sqrt(x) * sqrt(x) == x
  }

  /** Nothing on [low, high] is at or below zero. */
  ghost predicate StaysClear(a: real, b: real, c: real, low: real, high: real) {
    forall u :: low <= u <= high ==> Clearance(a, b, c, u) > 0.0
  }

  /** The first point of [low, high] at or below zero. */
  ghost predicate IsFirstContact(a: real, b: real, c: real, low: real, high: real, u: real) {
    && low <= u <= high && Clearance(a, b, c, u) <= 0.0
    && forall w :: low <= w < u ==> Clearance(a, b, c, w) > 0.0
  }

  // -- factored quadratics

  function Scaled(a: real, x: real, y: real): real { a * (x * y) }

  function Product(a: real, r: real, s: real, u: real): real { Scaled(a, u - r, u - s) }

  /** The clearance is a(u - r)(u - s). */
  ghost predicate Factors(a: real, b: real, c: real, r: real, s: real) {
    forall u :: Clearance(a, b, c, u) == Product(a, r, s, u)
  }

  lemma VietaFactors(a: real, b: real, c: real, r: real, s: real)
    requires b == -(a * (r + s)) && c == a * (r * s)
    ensures Factors(a, b, c, r, s)
  {
    forall u ensures Clearance(a, b, c, u) == Product(a, r, s, u) {
      calc {
        a * ((u - r) * (u - s));
        { assert (u - r) * (u - s) == u * u - (r + s) * u + r * s; }
        a * (u * u - (r + s) * u + r * s);
        a * (u * u) - a * ((r + s) * u) + a * (r * s);
        { assert a * (u * u) == (a * u) * u; assert a * ((r + s) * u) == (a * (r + s)) * u; }
        (a * u) * u + b * u + c;
        (a * u + b) * u + c;
      }
    }
  }

  lemma SignOfProduct(x: real, y: real)
    ensures x > 0.0 && y > 0.0 ==> x * y > 0.0
    ensures x < 0.0 && y < 0.0 ==> x * y > 0.0
    ensures x > 0.0 && y < 0.0 ==> x * y < 0.0
    ensures x < 0.0 && y > 0.0 ==> x * y < 0.0
    ensures x == 0.0 || y == 0.0 ==> x * y == 0.0
  {
  }

  lemma NotNegative(x: real, y: real)
    requires x >= 0.0 && y >= 0.0
    ensures x * y >= 0.0
  {
  }

  /** Both positive or both negative. */
  predicate Alike(x: real, y: real) { (x > 0.0 && y > 0.0) || (x < 0.0 && y < 0.0) }

  /** Factors of the same signs give scaled products of the same sign. */
  lemma SameFactors(a: real, x: real, y: real, v: real, w: real)
    requires Alike(x, v) && Alike(y, w) && Scaled(a, x, y) > 0.0
    ensures Scaled(a, v, w) > 0.0
  {
    SignOfProduct(x, y);
    SignOfProduct(v, w);
    SignOfProduct(a, x * y);
    SignOfProduct(a, v * w);
  }

  /** Between points not separated by a zero the sign of a factored quadratic is the same. */
  lemma SameSign(a: real, r: real, s: real, u: real, w: real)
    requires (u < r && w < r) || (u > r && w > r)
    requires (u < s && w < s) || (u > s && w > s)
    requires Product(a, r, s, u) > 0.0
    ensures Product(a, r, s, w) > 0.0
  {
    hide Scaled;
    SameFactors(a, u - r, u - s, w - r, w - s);
  }

  lemma ZeroAtRoots(a: real, r: real, s: real, u: real)
    requires u == r || u == s
    ensures Product(a, r, s, u) == 0.0
  {
    var x, y := u - r, u - s;
    SignOfProduct(x, y);
    assert Product(a, r, s, u) == a * (x * y);
  }

  predicate Candidate(low: real, high: real, r: real) { low < r <= high }

  lemma NoCandidateStaysClear(a: real, b: real, c: real, r: real, s: real, low: real, high: real)
    requires Factors(a, b, c, r, s) && Clearance(a, b, c, low) > 0.0
    requires !Candidate(low, high, r) && !Candidate(low, high, s)
    ensures StaysClear(a, b, c, low, high)
  {
    ZeroAtRoots(a, r, s, r);
    ZeroAtRoots(a, r, s, s);
    hide Clearance, Product;
    assert Clearance(a, b, c, low) == Product(a, r, s, low);
    forall u | low <= u <= high ensures Clearance(a, b, c, u) > 0.0 {
      assert Clearance(a, b, c, u) == Product(a, r, s, u);
      SameSign(a, r, s, low, u);
    }
  }

  /** The smaller candidate root is the first contact. */
  lemma LeastCandidateIsFirst(a: real, b: real, c: real, r: real, s: real, low: real, high: real, m: real)
    requires Factors(a, b, c, r, s) && Clearance(a, b, c, low) > 0.0
    requires (m == r || m == s) && Candidate(low, high, m)
    requires (Candidate(low, high, r) ==> m <= r) && (Candidate(low, high, s) ==> m <= s)
    ensures IsFirstContact(a, b, c, low, high, m)
  {
    ZeroAtRoots(a, r, s, r);
    ZeroAtRoots(a, r, s, s);
    hide Clearance, Product;
    assert Clearance(a, b, c, low) == Product(a, r, s, low);
    assert Clearance(a, b, c, m) == Product(a, r, s, m);
    forall w | low <= w < m ensures Clearance(a, b, c, w) > 0.0 {
      assert Clearance(a, b, c, w) == Product(a, r, s, w);
      SameSign(a, r, s, low, w);
    }
  }

  // -- the roots the formula computes

  lemma StableRoots(a: real, b: real, c: real, root: real, q: real)
    requires a != 0.0 && root * root == b * b - 4.0 * a * c && root >= 0.0
    requires q == (if b >= 0.0 then -(b + root) / 2.0 else -(b - root) / 2.0)
    ensures q != 0.0 ==> Factors(a, b, c, q / a, c / q)
    ensures q == 0.0 ==> Factors(a, b, c, q / a, 0.0)
  {
    QuadraticInQ(a, b, c, root, q);
    if q != 0.0 {
      var r, s := q / a, c / q;
      assert a * r == q && q * s == c;
      assert a * (r * s) == (a * r) * s;
      assert q * (a * s) == a * (q * s);
      assert q * (q + b + a * s) == q * (q + b) + q * (a * s);
      assert q * (q + b + a * s) == 0.0;
      assert q + b + a * s == 0.0 by { if q + b + a * s != 0.0 { NonZero(q, q + b + a * s); } }
      assert a * (r + s) == a * r + a * s;
      VietaFactors(a, b, c, r, s);
    } else {
      assert b == 0.0 && root == 0.0;
      assert 4.0 * a * c == 0.0;
      assert c == 0.0 by { if c != 0.0 { NonZero(4.0 * a, c); } }
      assert q / a == 0.0;
      VietaFactors(a, b, c, 0.0, 0.0);
    }
  }

  lemma NonZero(x: real, y: real)
    requires x != 0.0 && y != 0.0
    ensures x * y != 0.0
  {
    SignOfProduct(x, y);
  }

  /** q solves q(q + b) = -ac. */
  lemma QuadraticInQ(a: real, b: real, c: real, root: real, q: real)
    requires root * root == b * b - 4.0 * a * c
    requires q == -(b + root) / 2.0 || q == -(b - root) / 2.0
    ensures q * (q + b) == -(a * c)
  {
    var sign := if q == -(b + root) / 2.0 then 1.0 else -1.0;
    assert 2.0 * q == -b - sign * root;
    assert 2.0 * q + 2.0 * b == b - sign * root;
    assert (2.0 * q) * (2.0 * q + 2.0 * b) == (-b - sign * root) * (b - sign * root);
    assert (-b - sign * root) * (b - sign * root) == (sign * root) * (sign * root) - b * b;
    assert (sign * root) * (sign * root) == root * root;
    assert (2.0 * q) * (2.0 * q + 2.0 * b) == 4.0 * (q * (q + b));
    assert 4.0 * (a * c) == 4.0 * a * c;
  }

  /** No real root: the clearance keeps the sign it has. */
  lemma NoRealRoot(a: real, b: real, c: real, low: real, high: real)
    requires a != 0.0 && b * b - 4.0 * a * c < 0.0 && Clearance(a, b, c, low) > 0.0
    ensures StaysClear(a, b, c, low, high)
  {
    forall u ensures 4.0 * a * Clearance(a, b, c, u) > 0.0 {
      var x := 2.0 * a * u + b;
      assert x * x == 4.0 * a * (a * u * u + b * u) + b * b by {
        assert (2.0 * a * u) * (2.0 * a * u) == 4.0 * a * (a * u * u);
        assert (2.0 * a * u) * b == 2.0 * a * (b * u);
      }
      assert Clearance(a, b, c, u) == a * u * u + b * u + c;
      assert x * x >= 0.0;
    }
    forall u | low <= u <= high ensures Clearance(a, b, c, u) > 0.0 {
      assert 4.0 * a * Clearance(a, b, c, u) > 0.0 && 4.0 * a * Clearance(a, b, c, low) > 0.0;
      hide Clearance;
      SignOfProduct(4.0 * a, Clearance(a, b, c, u));
      SignOfProduct(4.0 * a, Clearance(a, b, c, low));
    }
  }

  // -- a linear clearance

  function Slope(b: real, r: real, u: real): real { b * (u - r) }

  lemma SlopeSign(b: real, r: real, low: real, u: real)
    requires Slope(b, r, low) > 0.0 && ((low < r && u < r) || (low > r && u > r))
    ensures Slope(b, r, u) > 0.0
  {
    SignOfProduct(b, low - r);
    SignOfProduct(b, u - r);
  }

  lemma LinearRoot(b: real, c: real, low: real, high: real, r: real)
    requires b != 0.0 && r == -c / b && Clearance(0.0, b, c, low) > 0.0
    ensures Candidate(low, high, r) ==> IsFirstContact(0.0, b, c, low, high, r)
    ensures !Candidate(low, high, r) ==> StaysClear(0.0, b, c, low, high)
  {
    assert b * r == -c;
    forall u ensures Clearance(0.0, b, c, u) == Slope(b, r, u) {
      assert b * (u - r) == b * u - b * r;
    }
    assert Slope(b, r, r) == 0.0;
    hide Clearance, Slope;
    assert Clearance(0.0, b, c, low) == Slope(b, r, low);
    forall u | low <= u <= high && (u < r || !Candidate(low, high, r)) ensures Clearance(0.0, b, c, u) > 0.0 {
      assert Clearance(0.0, b, c, u) == Slope(b, r, u);
      SlopeSign(b, r, low, u);
    }
    assert Clearance(0.0, b, c, r) == Slope(b, r, r);
  }

  lemma ConstantStays(c: real, low: real, high: real)
    requires c > 0.0
    ensures StaysClear(0.0, 0.0, c, low, high)
  {
  }

  /** The smallest u of [low, high] where the clearance is at or below zero, if there is one. */
  method SmallestClearanceRoot(sqrt: real -> real, quadratic: real, linear: real, constant: real, low: real, high: real)
    returns (contact: Option<real>)
    requires IsSquareRoot(sqrt) && low <= high
    ensures contact.None? ==> StaysClear(quadratic, linear, constant, low, high)
    ensures contact.Some? ==> IsFirstContact(quadratic, linear, constant, low, high, contact.value)
  {
    if Clearance(quadratic, linear, constant, low) <= 0.0 { return Some(low); }
    contact := None;
    if quadratic == 0.0 {
      if linear != 0.0 {
        var root := -constant / linear;
        LinearRoot(linear, constant, low, high, root);
        if low < root <= high { contact := Some(root); }
      } else {
        ConstantStays(constant, low, high);
      }
    } else {
      var discriminant := linear * linear - 4.0 * quadratic * constant;
      if discriminant >= 0.0 {
        var squareRoot := sqrt(discriminant);
        var q := if linear >= 0.0 then -(linear + squareRoot) / 2.0 else -(linear - squareRoot) / 2.0;
        var r, s := q / quadratic, if q != 0.0 then constant / q else 0.0;
        StableRoots(quadratic, linear, constant, squareRoot, q);
        contact := LeastRoot(quadratic, linear, constant, r, s, low, high);
      } else {
        NoRealRoot(quadratic, linear, constant, low, high);
      }
    }
  }

  /** The smaller of two roots that lies in (low, high]. */
  method LeastRoot(a: real, b: real, c: real, r: real, s: real, low: real, high: real) returns (contact: Option<real>)
    requires Factors(a, b, c, r, s) && Clearance(a, b, c, low) > 0.0
    ensures contact.None? ==> StaysClear(a, b, c, low, high)
    ensures contact.Some? ==> IsFirstContact(a, b, c, low, high, contact.value)
  {
    hide Factors, Clearance, StaysClear, IsFirstContact;
    if low < r <= high {
      var least := if low < s <= high && s < r then s else r;
      LeastCandidateIsFirst(a, b, c, r, s, low, high, least);
      contact := Some(least);
    } else if low < s <= high {
      LeastCandidateIsFirst(a, b, c, r, s, low, high, s);
      contact := Some(s);
    } else {
      NoCandidateStaysClear(a, b, c, r, s, low, high);
      contact := None;
    }
  }
}
