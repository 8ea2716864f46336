/** The real functions the engine borrows from `math` and numpy: the square
    root (written `x**0.5`), sine, cosine, arctangent and pi. They are passed
    in as a record, and `Lawful` collects the identities of them the model
    relies on. */
module Transcendental {

  datatype MathLib = MathLib(
    sqrt: real -> real,
    sin: real -> real,
    cos: real -> real,
    atan: real -> real,
    pi: real)

  /** The double-angle identities at the angle a / 2. */
  predicate HalfAngle(lib: MathLib, a: real) {
    var h := 0.5 * a;
    && lib.cos(h) * lib.cos(h) - lib.sin(h) * lib.sin(h) == lib.cos(a)
    && 2.0 * lib.sin(h) * lib.cos(h) == lib.sin(a)
  }

  ghost predicate Lawful(lib: MathLib) {
    // the principal square root of a non-negative number
    && (forall x :: x >= 0.0 ==> lib.sqrt(x) >= 0.0 && lib.sqrt(x) * lib.sqrt(x) == x)
    // Pythagoras
    && (forall x :: lib.sin(x) * lib.sin(x) + lib.cos(x) * lib.cos(x) == 1.0)
    // tan(atan(y)) == y
    && (forall y :: lib.sin(lib.atan(y)) == y * lib.cos(lib.atan(y)))
    // double angle, at the half-angles of arctangents
    && (forall y :: HalfAngle(lib, lib.atan(y)))
    // sin(pi/4) == cos(pi/4)
    && lib.sin(lib.pi / 4.0) == lib.cos(lib.pi / 4.0)
    && lib.pi > 0.0
  }

  lemma ProductPositive(a: real, b: real)
    requires a > 0.0 && b > 0.0
    ensures a * b > 0.0
  {
  }

  /** Two non-negative reals with the same square are equal; squaring keeps order. */
  lemma SquareOrder(a: real, b: real)
    requires a >= 0.0 && b >= 0.0
    ensures a * a == b * b ==> a == b
    ensures a * a <= b * b ==> a <= b
  {
    if a > b {
      ProductPositive(a - b, a + b);
      assert a * a - b * b == (a - b) * (a + b);
    } else if a < b {
      ProductPositive(b - a, b + a);
      assert b * b - a * a == (b - a) * (b + a);
    }
  }

  lemma SqrtSquared(lib: MathLib, x: real)
    requires Lawful(lib) && x >= 0.0
    ensures lib.sqrt(x) >= 0.0 && lib.sqrt(x) * lib.sqrt(x) == x
  {
  }

  /** The square root is determined by its two defining properties. */
  lemma SqrtUnique(lib: MathLib, x: real, y: real)
    requires Lawful(lib) && y >= 0.0 && y * y == x
    ensures lib.sqrt(x) == y
  {
    SquareOrder(lib.sqrt(x), y);
  }

  /** The square root is monotone on the non-negative reals. */
  lemma SqrtMonotone(lib: MathLib, x: real, y: real)
    requires Lawful(lib) && 0.0 <= x <= y
    ensures lib.sqrt(x) <= lib.sqrt(y)
  {
    SquareOrder(lib.sqrt(x), lib.sqrt(y));
  }

  /** Below one the root stays below one, and a positive argument has a positive root. */
  lemma SqrtBounds(lib: MathLib, x: real)
    requires Lawful(lib) && x >= 0.0
    ensures x < 1.0 ==> lib.sqrt(x) < 1.0
    ensures x <= 1.0 ==> lib.sqrt(x) <= 1.0
    ensures x > 0.0 ==> lib.sqrt(x) > 0.0
  {
    var a := lib.sqrt(x);
    assert a >= 0.0 && a * a == x;
    SquareOrder(a, 1.0);
  }

  /** `x**(-0.5)` as the reciprocal of the root: positive, and its square inverts x. */
  lemma ReciprocalRoot(lib: MathLib, x: real)
    requires Lawful(lib) && x > 0.0
    ensures 1.0 / lib.sqrt(x) > 0.0
    ensures (1.0 / lib.sqrt(x)) * (1.0 / lib.sqrt(x)) * x == 1.0
  {
    var a := lib.sqrt(x);
    SqrtBounds(lib, x);
    assert a * a == x;
    var r := 1.0 / a;
    assert r * a == 1.0;
    calc {
      r * r * x;
      (r * a) * (r * a);
      1.0;
    }
  }
}
