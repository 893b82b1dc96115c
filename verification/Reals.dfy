/** The few facts of real multiplication that scoring needs, one product at a time. */
module Reals {

  function Mul(a: real, b: real): real {
    a * b
  }

  function Square(x: real): (r: real)
    ensures r >= 0.0
  {
    SquareNotNegative(x);
    Mul(x, x)
  }

  function Quotient(x: real, d: real): real
    requires d != 0.0
  {
    x / d
  }

  lemma MulPositive(a: real, b: real)
    requires a > 0.0 && b > 0.0
    ensures Mul(a, b) > 0.0
  {
  }

  lemma MulNegated(a: real, b: real)
    ensures Mul(-a, -b) == Mul(a, b) && Mul(a, b) == Mul(b, a) && Mul(0.0, b) == 0.0
  {
  }

  lemma MulOrder(a: real, b: real, k: real)
    requires k > 0.0 && a < b
    ensures Mul(a, k) < Mul(b, k)
  {
  }

  lemma SquareNotNegative(x: real)
    ensures Mul(x, x) >= 0.0
  {
    MulNegated(x, x);
    if x > 0.0 {
      MulPositive(x, x);
    } else if x < 0.0 {
      MulPositive(-x, -x);
    }
  }

  lemma SquarePositive(x: real)
    ensures Square(x) > 0.0 || x == 0.0
  {
    MulNegated(x, x);
    if x > 0.0 {
      MulPositive(x, x);
    } else if x < 0.0 {
      MulPositive(-x, -x);
    }
  }

  lemma SquareGrows(x: real, p: real)
    requires p > 0.0
    ensures x > p ==> Square(x) > Square(p)
    ensures Square(-x) == Square(x)
  {
    MulNegated(x, x);
    MulNegated(p, x);
    if x > p {
      MulOrder(p, x, x);
      MulOrder(p, x, p);
    }
  }

  lemma SquareOfProduct(x: real, y: real)
    requires x > 0.0 && y > 0.0
    ensures Mul(x, y) > 0.0 && Square(Mul(x, y)) == Mul(Square(x), Square(y))
  {
    MulPositive(x, y);
    assert (x * y) * (x * y) == (x * x) * (y * y);
  }

  lemma QuotientOrder(a: real, b: real, c: real, d: real)
    requires b > 0.0 && d > 0.0 && Mul(a, d) < Mul(c, b)
    ensures Quotient(a, b) < Quotient(c, d)
  {
    var x, y := a / b, c / d;
    assert x * b == a && y * d == c;
    MulPositive(b, d);
    var k := b * d;
    assert x * k == a * d && y * k == c * b;
    if x > y {
      MulOrder(y, x, k);
    }
  }

  lemma QuotientBounded(x: real, p: real)
    requires p > 0.0 && Square(x) <= Square(p)
    ensures -1.0 <= Quotient(x, p) <= 1.0
  {
    SquareGrows(x, p);
    SquareGrows(-x, p);
    QuotientBetween(x, p);
  }

  lemma QuotientBetween(x: real, p: real)
    requires p > 0.0 && -p <= x <= p
    ensures -1.0 <= Quotient(x, p) <= 1.0
  {
    var q := x / p;
    assert q * p == x;
    if q > 1.0 {
      MulOrder(1.0, q, p);
    }
    if q < -1.0 {
      MulOrder(q, -1.0, p);
    }
  }

  lemma QuotientSquared(s: real, x: real, d: real)
    requires d != 0.0
    ensures Mul(s + Square(Quotient(x, d)), Square(d)) == Mul(s, Square(d)) + Square(x)
  {
    var y := x / d;
    assert y * d == x;
    assert (y * y) * (d * d) == (y * d) * (y * d);
  }

  lemma UnitFactor(s: real, q: real)
    requires Mul(s, q) == q && q > 0.0
    ensures s == 1.0
  {
    assert (s - 1.0) * q == 0.0;
  }

  function Difference(t: real, x: real, y: real): real {
    t * x - y
  }

  // The value at t of the quadratic with these coefficients.
  function Quadratic(t: real, a: real, c: real, b: real): real {
    t * t * a - 2.0 * t * c + b
  }

  lemma QuadraticGrows(t: real, x: real, y: real, a: real, c: real, b: real)
    ensures Quadratic(t, a, c, b) + Square(Difference(t, x, y))
         == Quadratic(t, a + Square(x), c + Mul(x, y), b + Square(y))
  {
    assert (t * x - y) * (t * x - y) == t * t * (x * x) - 2.0 * t * (x * y) + y * y;
    assert t * t * (a + x * x) == t * t * a + t * t * (x * x);
    assert 2.0 * t * (c + x * y) == 2.0 * t * c + 2.0 * t * (x * y);
  }

  lemma MulNotNegative(a: real, b: real)
    requires a > 0.0 && b >= 0.0
    ensures Mul(a, b) >= 0.0
  {
  }

  // A quadratic that is nowhere negative has no positive discriminant.
  lemma Discriminant(a: real, b: real, c: real)
    requires a > 0.0 && Quadratic(Quotient(c, a), a, c, b) >= 0.0
    ensures Square(c) <= Mul(a, b)
  {
    var t := c / a;
    assert t * a == c;
    assert t * t * a == t * c;
    MulNotNegative(a, b - t * c);
    assert a * (b - t * c) == a * b - a * (t * c);
    assert a * (t * c) == c * c;
  }

  lemma MulWeakOrder(k: real, x: real, y: real)
    requires k >= 0.0 && x <= y
    ensures Mul(k, x) <= Mul(k, y)
    ensures k > 0.0 && x < y ==> Mul(k, x) < Mul(k, y)
  {
    if k > 0.0 && x < y {
      MulOrder(x, y, k);
      MulCommutes(k, x);
      MulCommutes(k, y);
    }
  }

  lemma MulCommutes(a: real, b: real)
    ensures Mul(a, b) == Mul(b, a)
  {
  }

  lemma MulDistributes(a: real, b: real, c: real)
    ensures Mul(a, b + c) == Mul(a, b) + Mul(a, c)
  {
  }

  lemma CrossOrder(x: real, y: real, k: real)
    requires x < y && k > 0.0
    ensures Mul(x, y + k) < Mul(y, x + k)
  {
    MulDistributes(x, y, k);
    MulDistributes(y, x, k);
    MulCommutes(x, y);
    MulOrder(x, y, k);
  }

  lemma QuotientUnique(x: real, d: real, q: real)
    requires d > 0.0 && Mul(q, d) == x
    ensures Quotient(x, d) == q
  {
  }

  // Weighted sums of two and of three parts.
  function Mix(k1: real, x1: real, k2: real, x2: real): real {
    Mul(k1, x1) + Mul(k2, x2)
  }

  function Blend(k1: real, x1: real, k2: real, x2: real, k3: real, x3: real): real {
    Mix(k1, x1, k2, x2) + Mul(k3, x3)
  }

  // A part that is there or not counts its whole weight or nothing.
  lemma BlendIs(k1: real, x1: real, k2: real, present: bool, k3: real, x3: real)
    ensures Blend(k1, x1, k2, if present then 1.0 else 0.0, k3, x3) ==
            Mul(k1, x1) + (if present then k2 else 0.0) + Mul(k3, x3)
  {
  }

  lemma MixRises(k1: real, x1: real, y1: real, k2: real, x2: real, y2: real)
    requires k1 >= 0.0 && k2 >= 0.0 && x1 <= y1 && x2 <= y2
    ensures Mix(k1, x1, k2, x2) <= Mix(k1, y1, k2, y2)
    ensures (k1 > 0.0 && x1 < y1) || (k2 > 0.0 && x2 < y2) ==> Mix(k1, x1, k2, x2) < Mix(k1, y1, k2, y2)
  {
    MulWeakOrder(k1, x1, y1);
    MulWeakOrder(k2, x2, y2);
  }

  lemma BlendRises(k1: real, x1: real, y1: real, k2: real, x2: real, y2: real, k3: real, x3: real, y3: real)
    requires k1 >= 0.0 && k2 >= 0.0 && k3 >= 0.0 && x1 <= y1 && x2 <= y2 && x3 <= y3
    ensures Blend(k1, x1, k2, x2, k3, x3) <= Blend(k1, y1, k2, y2, k3, y3)
    ensures (k1 > 0.0 && x1 < y1) || (k2 > 0.0 && x2 < y2) || (k3 > 0.0 && x3 < y3) ==>
              Blend(k1, x1, k2, x2, k3, x3) < Blend(k1, y1, k2, y2, k3, y3)
  {
    MixRises(k1, x1, y1, k2, x2, y2);
    MulWeakOrder(k3, x3, y3);
  }
}
