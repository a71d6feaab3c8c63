/** Quotients of reals, compared by multiplying out. */
module Fractions {
  function Times(a: real, b: real): real { a * b }

  lemma DivideBack(x: real, y: real)
    requires y != 0.0
    ensures Times(x / y, y) == x
  {
  }

  lemma ScaledUp(a: real, b: real, s: real)
    requires a < b && s > 0.0
    ensures Times(a, s) < Times(b, s)
  {
    var d := b - a;
    assert d * s > 0.0;
    assert b * s == a * s + d * s;
  }

  /** Against a positive whole, a fraction compares as the parts do. */
  lemma CompareParts(x: real, y: real, t: real)
    requires y > 0.0
    ensures x / y <= t <==> x <= Times(t, y)
    ensures x / y >= t <==> x >= Times(t, y)
  {
    var q := x / y;
    DivideBack(x, y);
    Compare(q, t, y);
    assert Times(q, y) == x;
  }

  lemma Compare(a: real, b: real, s: real)
    requires s > 0.0
    ensures a <= b <==> Times(a, s) <= Times(b, s)
    ensures a >= b <==> Times(a, s) >= Times(b, s)
  {
    hide Times;
    if a < b {
      ScaledUp(a, b, s);
    } else if a > b {
      ScaledUp(b, a, s);
    }
  }

  lemma Negated(t: real, s: real)
    ensures Times(-t, s) == -Times(t, s)
  {
  }

  lemma SignKept(x: real, y: real)
    requires x >= 0.0 && y > 0.0
    ensures x / y >= 0.0
  {
    hide Times;
    CompareParts(x, y, 0.0);
    assert Times(0.0, y) == 0.0 by { ZeroTimes(y); }
  }

  lemma ZeroTimes(y: real)
    ensures Times(0.0, y) == 0.0
  {
  }

  lemma SquareNonNegative(x: real)
    ensures x * x >= 0.0
  {
  }

  lemma BothNonNegative(x: real, y: real)
    requires x >= 0.0 && y >= 0.0
    ensures x * y >= 0.0
  {
  }

  lemma Squared(k: real, sd: real, v: real)
    requires sd * sd == v
    ensures (k * sd) * (k * sd) == k * k * v
  {
    assert (k * sd) * (k * sd) == (k * k) * (sd * sd);
  }
}
