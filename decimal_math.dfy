/**
 * The decimal-safe arithmetic MRange adds to JavaScript: Math.add, Math.sub, Math.mul,
 * Math.div and the Number.prototype methods that call them.
 *
 * Each helper scales its operands by powers of ten taken from their decimal texts,
 * so that it computes with whole numbers instead of binary fractions. The model works
 * on exact reals, so it cannot show the rounding the helpers avoid; it shows that the
 * quantities they compute from the texts give the exact sum, difference, product and
 * quotient of the numbers the texts denote, and that the scaled operands of Math.add
 * are whole numbers.
 */
module DecimalMath {
  import opened Wrappers
  import opened RealArith
  import opened DecimalText

  // ---------------------------------------------------------------- powers of ten

  /** 10^n as a real, `Math.pow(10, n)` for n >= 0. */
  function Ten(n: nat): real {
    if n == 0 then 1.0 else 10.0 * Ten(n - 1)
  }

  lemma {:induction false} TenPositive(n: nat)
    ensures Ten(n) >= 1.0
  {
    if n > 0 {
      TenPositive(n - 1);
    }
  }

  /** The real power of ten is the integer one: a whole number. */
  lemma {:induction false} TenIsPow10(n: nat)
    ensures Ten(n) == Pow10(n) as real
  {
    if n > 0 {
      TenIsPow10(n - 1);
    }
  }

  /** 10^n splits at any a <= n into 10^a * 10^(n - a). */
  lemma {:induction false} TenSplit(n: nat, a: nat)
    requires a <= n
    ensures Ten(n) == Ten(a) * Ten(n - a)
  {
    if a < n {
      TenSplit(n - 1, a);
      ShiftFactor(Ten(a), Ten(n - 1 - a), Ten(n - 1), Ten(n), Ten(n - a));
    }
  }

  /** x / 10^n */
  function Shift(x: real, n: nat): real {
    TenPositive(n);
    x / Ten(n)
  }

  /** `Math.pow(10, e)` for an exponent that may be negative. */
  function PowTen(e: int): real {
    if e >= 0 then Ten(e) else Shift(1.0, -e)
  }

  lemma {:induction false} PowTenUp(a: nat, b: nat)
    requires a <= b
    ensures PowTen(b - a) == Shift(Ten(b), a)
  {
    TenSplit(b, a);
    TenPositive(a);
    Quotient(Ten(b), Ten(a), Ten(b - a));
  }

  lemma {:induction false} PowTenDown(a: nat, b: nat)
    requires b < a
    ensures PowTen(b - a) == Shift(Ten(b), a)
  {
    TenSplit(a, b);
    TenPositive(b);
    TenPositive(a - b);
    InverseQuotient(Ten(a), Ten(b), Ten(a - b));
  }

  /** 10^(b - a) is 10^b / 10^a whichever of a and b is larger. */
  lemma {:induction false} PowTenQuotient(a: nat, b: nat)
    ensures PowTen(b - a) == Shift(Ten(b), a)
  {
    if a <= b {
      PowTenUp(a, b);
    } else {
      PowTenDown(a, b);
    }
  }

  // ---------------------------------------------------------------- values

  /** The number a decimal text denotes: mantissa / 10^scale. */
  function Value(d: Decimal): real {
    Shift(d.mantissa as real, d.scale)
  }

  /** A number is zero exactly when the integer read from its text is. */
  lemma {:induction false} ZeroValue(d: Decimal)
    ensures Value(d) == 0.0 <==> d.mantissa == 0
  {
    TenPositive(d.scale);
    ZeroQuotient(d.mantissa as real, Ten(d.scale));
  }

  /** `-num`: the same digits with the other sign. */
  function Negate(d: Decimal): Decimal {
    Decimal(-d.mantissa, d.scale)
  }

  lemma {:induction false} NegateValue(d: Decimal)
    ensures Value(Negate(d)) == -Value(d)
  {
    TenPositive(d.scale);
    NegQuotient(d.mantissa as real, Ten(d.scale));
  }

  function Max(a: nat, b: nat): nat { if a >= b then a else b }

  // ---------------------------------------------------------------- Math.add, Math.sub

  /**
   * Math.add(num1, num2): both operands multiplied by m = 10^max(r1, r2), with r1 and r2
   * their fraction-digit counts, added, and divided by m.
   */
  function Add(a: Decimal, b: Decimal): (r: real)
    ensures r == Value(a) + Value(b)
  {
    var m := Ten(Max(FractionDigits(a), FractionDigits(b)));
    TenPositive(Max(FractionDigits(a), FractionDigits(b)));
    ScaleCancel(Value(a), Value(b), m);
    (Value(a) * m + Value(b) * m) / m
  }

  /** Scaled by 10^n for any n at least its scale, a number is a whole number. */
  lemma {:induction false} ScaleTo(d: Decimal, n: nat)
    requires d.scale <= n
    ensures Value(d) * Ten(n) == d.mantissa as real * Pow10(n - d.scale) as real
  {
    TenSplit(n, d.scale);
    TenPositive(d.scale);
    TenIsPow10(n - d.scale);
    ScaleAlgebra(d.mantissa as real, Ten(d.scale), Ten(n - d.scale), Ten(n));
  }

  /**
   * The two products `num * m` that Math.add adds are whole numbers (m is 10 to the
   * larger scale, which FractionDigits computes).
   */
  lemma {:induction false} AddScalesToIntegers(a: Decimal, b: Decimal)
    ensures Value(a) * Ten(Max(a.scale, b.scale)) == a.mantissa as real * Pow10(Max(a.scale, b.scale) - a.scale) as real
    ensures Value(b) * Ten(Max(a.scale, b.scale)) == b.mantissa as real * Pow10(Max(a.scale, b.scale) - b.scale) as real
  {
    ScaleTo(a, Max(a.scale, b.scale));
    ScaleTo(b, Max(a.scale, b.scale));
  }

  /** Math.sub(num1, num2) is Math.add(num1, -num2). */
  function Sub(a: Decimal, b: Decimal): (r: real)
    ensures r == Value(a) - Value(b)
  {
    NegateValue(b);
    Add(a, Negate(b))
  }

  // ---------------------------------------------------------------- Math.mul

  /** The quantity Math.mul returns, from the integers and counts it reads off the texts. */
  function Product(r1: int, r2: int, t1: nat, t2: nat): real {
    Shift(r1 as real * r2 as real, t1 + t2)
  }

  lemma {:induction false} MulExact(a: Decimal, b: Decimal, r1: int, r2: int, t1: nat, t2: nat)
    requires r1 == a.mantissa && r2 == b.mantissa && t1 == a.scale && t2 == b.scale
    ensures Product(r1, r2, t1, t2) == Value(a) * Value(b)
  {
    TenSplit(t1 + t2, t1);
    TenPositive(t1);
    TenPositive(t2);
    MulAlgebra(r1 as real, r2 as real, Ten(t1), Ten(t2), Ten(t1 + t2));
  }

  /**
   * Math.mul(num1, num2): the two point-free integers multiplied and divided by
   * 10^(fraction digits of num1 + fraction digits of num2).
   */
  function Mul(a: Decimal, b: Decimal): (r: real)
    ensures r == Value(a) * Value(b)
  {
    MulExact(a, b, PointFree(a), PointFree(b), FractionDigits(a), FractionDigits(b));
    Product(PointFree(a), PointFree(b), FractionDigits(a), FractionDigits(b))
  }

  // ---------------------------------------------------------------- Math.div

  datatype ArithError = DivisionByZero

  lemma {:induction false} DivExact(a: Decimal, b: Decimal, r1: int, r2: int, t1: nat, t2: nat)
    requires r1 == a.mantissa && r2 == b.mantissa && t1 == a.scale && t2 == b.scale
    requires r2 != 0 && Value(b) != 0.0
    ensures (r1 as real / r2 as real) * PowTen(t2 - t1) == Value(a) / Value(b)
  {
    PowTenQuotient(t1, t2);
    TenPositive(t1);
    TenPositive(t2);
    DivAlgebra(r1 as real, r2 as real, Ten(t1), Ten(t2));
  }

  /**
   * Math.div(num1, num2): `(r1 / r2) * 10^(t2 - t1)`, with r1 and r2 the point-free
   * integers and t1 and t2 the fraction-digit counts. Where the divisor is zero the
   * source yields Infinity or NaN; the model answers DivisionByZero.
   */
  function Div(a: Decimal, b: Decimal): (r: Result<real, ArithError>)
    ensures r.Success? <==> Value(b) != 0.0
    ensures r.Success? ==> r.value == Value(a) / Value(b)
  {
    var t1 := FractionDigits(a);
    var t2 := FractionDigits(b);
    var r1 := PointFree(a);
    var r2 := PointFree(b);
    ZeroValue(b);
    if r2 == 0 then Failure(DivisionByZero)
    else
      DivExact(a, b, r1, r2, t1, t2);
      Success((r1 as real / r2 as real) * PowTen(t2 - t1))
  }

  // ---------------------------------------------------------------- Number.prototype

  /** `x.add(y)` is Math.add(y, x). */
  function NumberAdd(self: Decimal, num: Decimal): (r: real)
    ensures r == Value(self) + Value(num)
  {
    Add(num, self)
  }

  /** `x.sub(y)` is Math.sub(x, y). */
  function NumberSub(self: Decimal, num: Decimal): (r: real)
    ensures r == Value(self) - Value(num)
  {
    Sub(self, num)
  }

  /** `x.mul(y)` is Math.mul(y, x). */
  function NumberMul(self: Decimal, num: Decimal): (r: real)
    ensures r == Value(self) * Value(num)
  {
    Mul(num, self)
  }

  /** `x.div(y)` is Math.div(x, y). */
  function NumberDiv(self: Decimal, num: Decimal): (r: Result<real, ArithError>)
    ensures r.Success? <==> Value(num) != 0.0
    ensures r.Success? ==> r.value == Value(self) / Value(num)
  {
    Div(self, num)
  }
}
