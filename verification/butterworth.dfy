/** The Butterworth gain curves of the band-pass filter (`GL`, `GH`, `GB` in
    app.py). The source raises `f/fc` to the real power `2*n`; the model takes
    the order as a natural number, so the power is a repeated product. */
module Butterworth {
  import opened Transcendental

  /** b raised to a natural power; `Pow(0.0, 0) == 1.0` as in numpy. */
  function Pow(b: real, e: nat): real {
    if e == 0 then 1.0 else b * Pow(b, e - 1)
  }

  lemma {:induction false} EvenPowNonNegative(b: real, n: nat)
    ensures Pow(b, 2 * n) >= 0.0
  {
    if n > 0 {
      EvenPowNonNegative(b, n - 1);
      assert Pow(b, 2 * n) == b * b * Pow(b, 2 * (n - 1));
      assert b * b >= 0.0;
    }
  }

  lemma {:induction false} PowOne(e: nat)
    ensures Pow(1.0, e) == 1.0
  {
    if e > 0 {
      PowOne(e - 1);
    }
  }

  lemma {:induction false} PowZero(e: nat)
    requires e >= 1
    ensures Pow(0.0, e) == 0.0
  {
  }

  lemma MulMonotone(a: real, b: real, c: real, d: real)
    requires 0.0 <= a <= b && 0.0 <= c <= d
    ensures a * c <= b * d
  {
    assert a * c <= b * c;
    assert b * c <= b * d;
  }

  /** The two Butterworth fractions of a non-negative shape term lie in the unit interval. */
  lemma FractionBounds(x: real)
    requires x >= 0.0
    ensures 0.0 <= x / (1.0 + x) < 1.0
    ensures 0.0 < 1.0 / (1.0 + x) <= 1.0
    ensures x / (1.0 + x) == 1.0 - 1.0 / (1.0 + x)
  {
    var d := 1.0 + x;
    assert x / d * d == x;
    assert 1.0 / d * d == 1.0;
  }

  lemma ReciprocalAntitone(a: real, b: real)
    requires 0.0 < a <= b
    ensures 1.0 / b <= 1.0 / a
  {
    assert 1.0 / a * a == 1.0;
    assert 1.0 / b * b == 1.0;
    if 1.0 / b > 1.0 / a {
      MulMonotone(1.0 / a, 1.0 / b, a, b);
    }
  }

  lemma ProductOfFractions(l: real, h: real, g: real, xl: real, xh: real)
    requires xl >= 0.0 && xh >= 0.0 && g == l * h
    requires l * l == xl / (1.0 + xl) && h * h == 1.0 / (1.0 + xh)
    ensures g * g == xl / ((1.0 + xl) * (1.0 + xh))
  {
    var a, b := 1.0 + xl, 1.0 + xh;
    assert (l * h) * (l * h) == (l * l) * (h * h);
    assert (xl / a) * (1.0 / b) == xl / (a * b);
  }

  lemma {:induction false} PowMonotone(a: real, b: real, e: nat)
    requires 0.0 <= a <= b
    ensures 0.0 <= Pow(a, e) <= Pow(b, e)
  {
    if e > 0 {
      PowMonotone(a, b, e - 1);
      MulMonotone(a, b, Pow(a, e - 1), Pow(b, e - 1));
    }
  }

  /** The shape term `(f/fc)**(2*n)`. */
  function Shape(f: real, fc: real, n: nat): (x: real)
    requires fc != 0.0
    ensures x >= 0.0
  {
    EvenPowNonNegative(f / fc, n);
    Pow(f / fc, 2 * n)
  }

  /** Low-cut gain: `((f/fl)**(2n) / (1 + (f/fl)**(2n)))**0.5`. */
  function GL(lib: MathLib, f: real, fl: real, n: nat): real
    requires fl != 0.0
  {
    var x := Shape(f, fl, n);
    lib.sqrt(x / (1.0 + x))
  }

  /** High-cut gain: `(1 / (1 + (f/fh)**(2n)))**0.5`. */
  function GH(lib: MathLib, f: real, fh: real, n: nat): real
    requires fh != 0.0
  {
    var x := Shape(f, fh, n);
    lib.sqrt(1.0 / (1.0 + x))
  }

  /** Band-pass gain: the product of the two cuts. */
  function GB(lib: MathLib, f: real, fl: real, fh: real, n: nat): real
    requires fl != 0.0 && fh != 0.0
  {
    GL(lib, f, fl, n) * GH(lib, f, fh, n)
  }

  lemma GLSquared(lib: MathLib, f: real, fl: real, n: nat)
    requires Lawful(lib) && fl != 0.0
    ensures GL(lib, f, fl, n) * GL(lib, f, fl, n) == Shape(f, fl, n) / (1.0 + Shape(f, fl, n))
  {
    FractionBounds(Shape(f, fl, n));
    SqrtSquared(lib, Shape(f, fl, n) / (1.0 + Shape(f, fl, n)));
  }

  lemma GHSquared(lib: MathLib, f: real, fh: real, n: nat)
    requires Lawful(lib) && fh != 0.0
    ensures GH(lib, f, fh, n) * GH(lib, f, fh, n) == 1.0 / (1.0 + Shape(f, fh, n))
  {
    FractionBounds(Shape(f, fh, n));
    SqrtSquared(lib, 1.0 / (1.0 + Shape(f, fh, n)));
  }

  /** The squared gains are the Butterworth magnitude-squared responses. */
  lemma SquaredGains(lib: MathLib, f: real, fl: real, fh: real, n: nat)
    requires Lawful(lib) && fl != 0.0 && fh != 0.0
    ensures GL(lib, f, fl, n) * GL(lib, f, fl, n) == Shape(f, fl, n) / (1.0 + Shape(f, fl, n))
    ensures GH(lib, f, fh, n) * GH(lib, f, fh, n) == 1.0 / (1.0 + Shape(f, fh, n))
    ensures GB(lib, f, fl, fh, n) * GB(lib, f, fl, fh, n)
         == Shape(f, fl, n) / ((1.0 + Shape(f, fl, n)) * (1.0 + Shape(f, fh, n)))
  {
    GLSquared(lib, f, fl, n);
    GHSquared(lib, f, fh, n);
    GBSquared(lib, f, fl, fh, n);
  }

  lemma GBSquared(lib: MathLib, f: real, fl: real, fh: real, n: nat)
    requires fl != 0.0 && fh != 0.0
    requires GL(lib, f, fl, n) * GL(lib, f, fl, n) == Shape(f, fl, n) / (1.0 + Shape(f, fl, n))
    requires GH(lib, f, fh, n) * GH(lib, f, fh, n) == 1.0 / (1.0 + Shape(f, fh, n))
    ensures GB(lib, f, fl, fh, n) * GB(lib, f, fl, fh, n)
         == Shape(f, fl, n) / ((1.0 + Shape(f, fl, n)) * (1.0 + Shape(f, fh, n)))
  {
    ProductOfFractions(GL(lib, f, fl, n), GH(lib, f, fh, n), GB(lib, f, fl, fh, n), Shape(f, fl, n), Shape(f, fh, n));
  }

  /** At zero frequency the low cut blocks and the high cut passes. */
  lemma GainsAtZero(lib: MathLib, fl: real, fh: real, n: nat)
    requires Lawful(lib) && fl != 0.0 && fh != 0.0 && n >= 1
    ensures GL(lib, 0.0, fl, n) == 0.0
    ensures GH(lib, 0.0, fh, n) == 1.0
    ensures GB(lib, 0.0, fl, fh, n) == 0.0
  {
    assert 0.0 / fl == 0.0 && 0.0 / fh == 0.0;
    PowZero(2 * n);
    SqrtUnique(lib, 0.0, 0.0);
    SqrtUnique(lib, 1.0, 1.0);
  }

  /** Every gain lies in the unit interval; the low cut never reaches one
      and the high cut never reaches zero. */
  lemma GainBounds(lib: MathLib, f: real, fl: real, fh: real, n: nat)
    requires Lawful(lib) && fl != 0.0 && fh != 0.0
    ensures 0.0 <= GL(lib, f, fl, n) < 1.0
    ensures 0.0 < GH(lib, f, fh, n) <= 1.0
    ensures 0.0 <= GB(lib, f, fl, fh, n) < 1.0
  {
    var xl, xh := Shape(f, fl, n), Shape(f, fh, n);
    FractionBounds(xl);
    FractionBounds(xh);
    SqrtBounds(lib, xl / (1.0 + xl));
    SqrtBounds(lib, 1.0 / (1.0 + xh));
    var l, h := GL(lib, f, fl, n), GH(lib, f, fh, n);
    MulMonotone(l, 1.0, h, 1.0);
    assert l * h <= l;
  }

  /** At its own cutoff each gain is the half-power value, whatever the order. */
  lemma HalfPowerAtCutoff(lib: MathLib, fl: real, fh: real, n: nat)
    requires Lawful(lib) && fl != 0.0 && fh != 0.0
    ensures GL(lib, fl, fl, n) * GL(lib, fl, fl, n) == 0.5
    ensures GH(lib, fh, fh, n) * GH(lib, fh, fh, n) == 0.5
  {
    assert fl / fl == 1.0 && fh / fh == 1.0;
    PowOne(2 * n);
    SquaredGains(lib, fl, fl, fh, n);
    SquaredGains(lib, fh, fl, fh, n);
  }

  lemma ShapeMonotone(f1: real, f2: real, fc: real, n: nat)
    requires 0.0 <= f1 <= f2 && fc > 0.0
    ensures Shape(f1, fc, n) <= Shape(f2, fc, n)
  {
    assert 0.0 <= f1 / fc <= f2 / fc;
    PowMonotone(f1 / fc, f2 / fc, 2 * n);
  }

  /** Over non-negative frequencies the low cut rises and the high cut falls. */
  lemma GainMonotone(lib: MathLib, f1: real, f2: real, fl: real, fh: real, n: nat)
    requires Lawful(lib) && 0.0 <= f1 <= f2 && fl > 0.0 && fh > 0.0
    ensures GL(lib, f1, fl, n) <= GL(lib, f2, fl, n)
    ensures GH(lib, f1, fh, n) >= GH(lib, f2, fh, n)
  {
    var a, b := Shape(f1, fl, n), Shape(f2, fl, n);
    ShapeMonotone(f1, f2, fl, n);
    FractionBounds(a);
    FractionBounds(b);
    ReciprocalAntitone(1.0 + a, 1.0 + b);
    SqrtMonotone(lib, a / (1.0 + a), b / (1.0 + b));
    var c, d := Shape(f1, fh, n), Shape(f2, fh, n);
    ShapeMonotone(f1, f2, fh, n);
    FractionBounds(c);
    FractionBounds(d);
    ReciprocalAntitone(1.0 + c, 1.0 + d);
    SqrtMonotone(lib, 1.0 / (1.0 + d), 1.0 / (1.0 + c));
  }
}
