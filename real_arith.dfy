/**
 * Facts of real arithmetic over plain variables. Each is proved on its own, so that
 * the proofs that use them only have to instantiate them.
 */
module RealArith {

  function Abs(x: real): (a: real)
    ensures a >= 0.0 && (a == x || a == -x)
  {
    if x >= 0.0 then x else -x
  }

  /** Adding two scaled numbers and scaling back adds the numbers. */
  lemma ScaleCancel(x: real, y: real, m: real)
    requires m > 0.0
    ensures (x * m + y * m) / m == x + y
  {
    assert x * m + y * m == (x + y) * m;
  }

  /** Multiplying one factor by ten multiplies the product by ten. */
  lemma ShiftFactor(x: real, y: real, n: real, bigN: real, bigY: real)
    requires n == x * y && bigN == 10.0 * n && bigY == 10.0 * y
    ensures bigN == x * bigY
  {
  }

  /** Dividing by p and multiplying by p * k multiplies by k. */
  lemma ScaleAlgebra(m: real, p: real, k: real, pk: real)
    requires p > 0.0 && pk == p * k
    ensures m / p * pk == m * k
  {
  }

  /** A product of two quotients over one common denominator. */
  lemma MulAlgebra(ma: real, mb: real, pa: real, pb: real, pab: real)
    requires pa > 0.0 && pb > 0.0 && pab == pa * pb
    ensures ma * mb / pab == (ma / pa) * (mb / pb)
  {
  }

  /** A quotient of two quotients, rescaled by the ratio of their denominators. */
  lemma DivAlgebra(ma: real, mb: real, pa: real, pb: real)
    requires pa > 0.0 && pb > 0.0 && mb != 0.0
    ensures (ma / mb) * (pb / pa) == (ma / pa) / (mb / pb)
  {
  }

  /** pa == pb * pk gives pk == pa / pb. */
  lemma Quotient(pa: real, pb: real, pk: real)
    requires pa == pb * pk && pb > 0.0
    ensures pk == pa / pb
  {
  }

  /** pa == pb * pk gives 1 / pk == pb / pa. */
  lemma InverseQuotient(pa: real, pb: real, pk: real)
    requires pa == pb * pk && pb > 0.0 && pk > 0.0
    ensures 1.0 / pk == pb / pa
  {
  }

  /** Dividing by a positive number keeps zero and only zero at zero. */
  lemma ZeroQuotient(m: real, p: real)
    requires p > 0.0
    ensures m / p == 0.0 <==> m == 0.0
  {
  }

  lemma NegQuotient(m: real, p: real)
    requires p > 0.0
    ensures (-m) / p == -(m / p)
  {
  }

  /** Multiplying by a positive number keeps order. */
  lemma MulMonotone(x: real, y: real, s: real)
    requires x <= y && s > 0.0
    ensures x * s <= y * s
  {
  }

  /** Multiplying by a positive number multiplies the distance from zero. */
  lemma AbsScale(x: real, s: real)
    requires s > 0.0
    ensures Abs(x * s) == Abs(x) * s
  {
  }

  /** Differences of points on one scale: (p * s + m) - (q * s + m) == (p - q) * s. */
  lemma DiffScale(p: real, q: real, s: real, m: real)
    ensures (p * s + m) - (q * s + m) == (p - q) * s
  {
  }

  /** Undoing a division: (d / s) * s == d. */
  lemma DivCancel(d: real, s: real, a: real)
    requires s > 0.0 && a == d / s
    ensures a * s == d
  {
  }

  /** w pixels out of wMax over a span d, counted in steps of s, is the fraction w / wMax of d. */
  lemma StepScale(w: real, wMax: real, d: real, s: real, c: real)
    requires wMax > 0.0 && d > 0.0 && s > 0.0 && c == w / (wMax / d) / s
    ensures c * s == w / wMax * d
  {
    assert w / (wMax / d) == w / wMax * d;
  }

  /** Counting in steps keeps the order of pixel distances. */
  lemma StepOrder(w1: real, w2: real, wMax: real, d: real, s: real)
    requires wMax > 0.0 && d > 0.0 && s > 0.0 && w1 <= w2
    ensures w1 / (wMax / d) / s <= w2 / (wMax / d) / s
  {
    assert wMax / d > 0.0;
    assert w1 / (wMax / d) <= w2 / (wMax / d);
  }

  /** The whole track counts as d / s steps. */
  lemma StepWhole(wMax: real, d: real, s: real)
    requires wMax > 0.0 && d > 0.0 && s > 0.0
    ensures wMax / (wMax / d) / s == d / s
  {
    assert wMax / (wMax / d) == d;
  }

  /** The pixel distance of x steps, counted back in steps, is x again. */
  lemma StepPixel(x: real, wMax: real, d: real, s: real, w: real)
    requires wMax > 0.0 && d > 0.0 && s > 0.0 && w == x * s / d * wMax
    ensures w / (wMax / d) / s == x
  {
    assert w / (wMax / d) == x * s;
  }

  /** A part x of a span d, as a fraction of wMax pixels, lies between 0 and wMax. */
  lemma PixelFraction(x: real, d: real, wMax: real)
    requires d > 0.0 && wMax > 0.0 && 0.0 <= x <= d
    ensures 0.0 <= x / d * wMax <= wMax
  {
    assert x / d <= 1.0;
  }

  /**
   * Distances measured in steps of s from a common origin m scale by s: a point p at
   * least as close to c as q stays at least as close once both are mapped to values.
   */
  lemma CloserScaled(p: real, q: real, c: real, s: real, m: real, r: real, g: real, v: real)
    requires s > 0.0 && Abs(p - c) <= Abs(q - c)
    requires r == p * s + m && g == q * s + m && v == c * s + m
    ensures Abs(r - v) <= Abs(g - v)
  {
    assert Abs(r - v) == Abs(p - c) * s by { AbsDiffScaled(p, c, s, m, r, v); }
    assert Abs(g - v) == Abs(q - c) * s by { AbsDiffScaled(q, c, s, m, g, v); }
    MulMonotone(Abs(p - c), Abs(q - c), s);
  }

  /** Order on the step scale is order on the value scale. */
  lemma OrderScaled(p: real, q: real, s: real, m: real, r: real, g: real)
    requires s > 0.0 && p <= q && r == p * s + m && g == q * s + m
    ensures r <= g
  {
    MulMonotone(p, q, s);
  }

  /** The pixel offset of the grid point x * s + m on a span d drawn wMax pixels wide. */
  lemma GridPixel(x: real, s: real, m: real, d: real, wMax: real, g: real, w: real)
    requires d > 0.0 && g == x * s + m && w == (g - m) / d * wMax
    ensures w == x * s / d * wMax
  {
    assert g - m == x * s;
  }

  /** A point within half a step of c on the step scale is within s / 2 of it as a value. */
  lemma HalfStepScaled(p: real, c: real, s: real, m: real, r: real, v: real)
    requires s > 0.0 && Abs(p - c) <= 0.5 && r == p * s + m && v == c * s + m
    ensures Abs(r - v) <= s * 0.5
  {
    var d := Abs(p - c);
    assert Abs(r - v) == d * s by { AbsDiffScaled(p, c, s, m, r, v); }
    assert d * s <= 0.5 * s by { MulMonotone(d, 0.5, s); }
  }

  /** The distance between two points on a scale of step s is s times their distance in steps. */
  lemma AbsDiffScaled(p: real, c: real, s: real, m: real, r: real, v: real)
    requires s > 0.0 && r == p * s + m && v == c * s + m
    ensures Abs(r - v) == Abs(p - c) * s
  {
    assert r - v == (p - c) * s by { DiffScale(p, c, s, m); }
    AbsScale(p - c, s);
  }
}
