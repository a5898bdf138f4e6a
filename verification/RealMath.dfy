/** Facts about real arithmetic that the solver needs one at a time. */
module RealMath {

  function Times(a: real, b: real): real {
    a * b
  }

  lemma TimesAssociates(a: real, b: real, c: real)
    ensures Times(Times(a, b), c) == Times(a, Times(b, c))
  {
  }

  lemma TimesSwaps(a: real, b: real, c: real)
    ensures Times(Times(a, b), c) == Times(Times(a, c), b)
  {
  }

  lemma PositiveTimes(a: real, b: real)
    requires (a > 0.0 && b > 0.0) || (a < 0.0 && b < 0.0)
    ensures Times(a, b) > 0.0
  {
    if a < 0.0 {
      assert (-a) * (-b) == a * b;
    }
  }

  /** A square is positive except at zero. */
  lemma Square(a: real)
    ensures Times(a, a) >= 0.0
    ensures Times(a, a) == 0.0 ==> a == 0.0
  {
    if a != 0.0 { PositiveTimes(a, a); }
  }

  lemma Cancel(u: real, v: real, c: real)
    requires c > 0.0 && u * c <= v * c
    ensures u <= v
  {
    assert (v - u) * c >= 0.0;
  }

  lemma MulMonotone(u: real, v: real, c: real)
    requires u <= v && c >= 0.0
    ensures u * c <= v * c
  {
    assert (v - u) * c >= 0.0;
  }

  lemma Quotient(x: real, a: real)
    requires a != 0.0
    ensures x / a * a == x
  {
  }

  lemma QuotientIs(x: real, a: real, q: real)
    requires a != 0.0 && q * a == x
    ensures x / a == q
  {
    var p := x / a;
    Quotient(x, a);
    assert (p - q) * a == 0.0;
  }

  lemma QuotientsOrdered(x: real, a: real, y: real, b: real)
    requires a > 0.0 && b > 0.0 && x * b <= y * a
    ensures x / a <= y / b
  {
    var u, v := x / a, y / b;
    Quotient(x, a);
    Quotient(y, b);
    assert x * b == u * a * b == u * (a * b);
    assert y * a == v * b * a == v * (a * b);
    assert a * b > 0.0;
    Cancel(u, v, a * b);
  }

  lemma CancelInt(a: int, b: int, c: int)
    requires c > 0 && a * c <= b * c
    ensures a <= b
  {
    assert (b - a) * c >= 0;
  }

  lemma MulMonotoneInt(a: int, b: int, c: int)
    requires c >= 0 && a <= b
    ensures a * c <= b * c
  {
    assert (b - a) * c >= 0;
  }
}
