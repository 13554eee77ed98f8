/** Products of reals behind a name, so that proofs about them go step by step. */
module Products {

  function Mul(x: real, y: real): real {
    x * y
  }

  lemma MulSigns(x: real, y: real)
    ensures x >= 0.0 && y >= 0.0 ==> Mul(x, y) >= 0.0
    ensures x > 0.0 && y > 0.0 ==> Mul(x, y) > 0.0
    ensures Mul(x, x) >= 0.0
    ensures Mul(x, y) == Mul(y, x) && Mul(0.0, x) == 0.0 && Mul(1.0, x) == x && Mul(0.25, x) == x / 4.0
  {
  }

  lemma MulAdd(x: real, y: real, z: real)
    ensures Mul(x + y, z) == Mul(x, z) + Mul(y, z)
  {
  }

  lemma MulShuffle(a: real, b: real, c: real, d: real)
    ensures Mul(Mul(a, b), Mul(c, d)) == Mul(Mul(a, c), Mul(b, d))
  {
    assert (a * b) * (c * d) == (a * c) * (b * d);
  }

  lemma SquareSum(a: real, b: real)
    ensures Mul(a + b, a + b) == Mul(a, a) + 2.0 * Mul(a, b) + Mul(b, b)
    ensures Mul(a - b, a - b) == Mul(a, a) - 2.0 * Mul(a, b) + Mul(b, b)
    ensures Mul(2.0 * a, 2.0 * a) == 4.0 * Mul(a, a)
  {
  }

  lemma MulMonotone(x: real, y: real, z: real)
    requires z >= 0.0
    ensures x <= y ==> Mul(x, z) <= Mul(y, z)
    ensures x < y && z > 0.0 ==> Mul(x, z) < Mul(y, z)
  {
    MulAdd(x, y - x, z);
    MulSigns(y - x, z);
    hide Mul;
    assert x + (y - x) == y;
  }

  /** Squares order nonnegative numbers. */
  lemma SquareOrder(x: real, y: real)
    requires x >= 0.0 && y >= 0.0
    ensures Mul(x, x) <= Mul(y, y) <==> x <= y
  {
    MulSigns(x, y);
    MulMonotone(x, y, x);
    MulMonotone(x, y, y);
    MulMonotone(y, x, x);
    MulMonotone(y, x, y);
    hide Mul;
  }

  lemma SameSquare(x: real, y: real, n: real)
    requires x >= 0.0 && y >= 0.0 && n > 0.0 && Mul(Mul(x, x), n) == Mul(Mul(y, y), n)
    ensures x == y
  {
    MulMonotone(Mul(x, x), Mul(y, y), n);
    MulMonotone(Mul(y, y), Mul(x, x), n);
    SquareOrder(x, y);
    SquareOrder(y, x);
    hide Mul;
  }

  lemma Quotient(x: real, d: real)
    requires d > 0.0
    ensures Mul(x / d, d) == x
  {
  }

  lemma UnitRange(x: real, d: real)
    requires d > 0.0 && 0.0 <= x <= d
    ensures 0.0 <= x / d <= 1.0
  {
    Quotient(x, d);
    MulSigns(d, d);
    MulMonotone(x / d, 0.0, d);
    MulMonotone(1.0, x / d, d);
    hide Mul;
  }

  lemma DivAdd(x: real, y: real, d: real)
    requires d > 0.0
    ensures x / d + y / d == (x + y) / d
  {
    Quotient(x, d);
    Quotient(y, d);
    Quotient(x + y, d);
    MulAdd(x / d, y / d, d);
    MulMonotone(x / d + y / d, (x + y) / d, d);
    MulMonotone((x + y) / d, x / d + y / d, d);
    hide Mul;
  }

  lemma DivMonotone(x: real, y: real, d: real)
    requires d > 0.0 && x <= y
    ensures x / d <= y / d
  {
    Quotient(x, d);
    Quotient(y, d);
    MulMonotone(y / d, x / d, d);
    hide Mul;
  }

  /** A larger divisor gives a smaller quotient. */
  lemma DivAntitone(x: real, d: real, e: real)
    requires x > 0.0 && 0.0 < d <= e
    ensures x / e <= x / d
  {
    Quotient(x, d);
    Quotient(x, e);
    MulSigns(x / e, d);
    MulSigns(x / e, e);
    MulSigns(d, d);
    MulMonotone(x / d, 0.0, d);
    MulMonotone(x / d, x / e, d);
    MulMonotone(d, e, x / d);
    MulSigns(d, x / d);
    MulSigns(e, x / d);
    MulMonotone(x / d, x / e, e);
    hide Mul;
  }

  lemma MulBoth(p: real, x: real, q: real, y: real)
    ensures Mul(p + x, q + y) == Mul(p, q) + Mul(p, y) + Mul(x, q) + Mul(x, y)
  {
    MulAdd(p, x, q + y);
    MulSigns(p, q + y);
    MulSigns(x, q + y);
    MulAdd(q, y, p);
    MulAdd(q, y, x);
    MulSigns(q, p);
    MulSigns(y, p);
    MulSigns(q, x);
    MulSigns(y, x);
    hide Mul;
  }

  /** The step of the Cauchy-Schwarz inequality: from sums d, p, q so far to the next two terms. */
  lemma CauchyStep(d: real, p: real, q: real, x: real, y: real)
    requires d >= 0.0 && p >= 0.0 && q >= 0.0 && x >= 0.0 && y >= 0.0 && Mul(d, d) <= Mul(p, q)
    ensures Mul(d + Mul(x, y), d + Mul(x, y)) <= Mul(p + Mul(x, x), q + Mul(y, y))
  {
    var xy, xx, yy := Mul(x, y), Mul(x, x), Mul(y, y);
    var g, h, z := Mul(p, yy), Mul(q, xx), Mul(d, xy);
    MulSigns(x, y);
    MulSigns(y, x);
    MulSigns(p, yy);
    MulSigns(q, xx);
    MulSigns(d, xy);
    MulSigns(xy, xy);
    MulSigns(g - h, g - h);
    MulShuffle(d, xy, d, xy);
    MulShuffle(p, yy, xx, q);
    MulShuffle(p, q, xx, yy);
    MulShuffle(x, x, y, y);
    MulShuffle(p, yy, q, xx);
    MulSigns(yy, xx);
    MulMonotone(Mul(d, d), Mul(p, q), Mul(xy, xy));
    SquareSum(g, h);
    SquareSum(z, z);
    SquareOrder(2.0 * z, g + h);
    SquareSum(d, xy);
    MulBoth(p, xx, q, yy);
    MulSigns(xx, q);
    hide Mul;
  }

  function Clamp01(x: real): real {
    if x < 0.0 then 0.0 else if x > 1.0 then 1.0 else x
  }

  lemma ClampGrows(x: real, y: real)
    requires x <= y
    ensures 0.0 <= Clamp01(x) <= Clamp01(y) <= 1.0
  {
  }
}
