/** A two-storey building on which `Modos` as written returns shapes that are
    not mass-orthonormal. Storey stiffnesses 3 and 1 and floor masses 4 and 1
    give r = diag(1/2, 1) and the classical matrix [[1, -1/2], [-1/2, 1]],
    whose equal diagonal makes the first rotation a quarter-turn by pi/4. */
module ModesFinding {
  import opened LinAlg
  import opened Transcendental
  import opened Outcome
  import opened JacobiRotation
  import opened JacobiSweep
  import opened ShearBuilding
  import opened ModalAnalysis

  function ExampleStiffness(): Matrix {
    [[4.0, -1.0], [-1.0, 1.0]]
  }

  function ExampleMass(): Matrix {
    [[4.0, 0.0], [0.0, 1.0]]
  }

  function ExampleClassical(): Matrix {
    [[1.0, -0.5], [-0.5, 1.0]]
  }

  /** The example matrices are what `MatrizRigidez((3, 1))` and
      `MatrizMasa((4, 1))` build. */
  lemma ExampleBuilding()
    ensures IsShearStiffness(ExampleStiffness(), [3.0, 1.0])
    ensures IsSquare(ExampleMass(), 2) && IsDiagonal(ExampleMass()) && Diagonal(ExampleMass()) == [4.0, 1.0]
  {
    var K := ExampleStiffness();
    var one := Ones(2);
    assert Dot(K[0], one) == 3.0 by { DotPair(K[0], one, 0, 1); }
    assert Dot(K[1], one) == 0.0 by { DotPair(K[1], one, 0, 1); }
  }

  lemma ExampleScaling(lib: MathLib)
    requires Lawful(lib)
    ensures MassScaling(lib, ExampleMass()) == Ok([0.5, 1.0])
  {
    SqrtUnique(lib, 4.0, 2.0);
    SqrtUnique(lib, 1.0, 1.0);
    var M := ExampleMass();
    assert PositiveMasses(M);
    var s := MassScaling(lib, M).value;
    assert s == [1.0 / lib.sqrt(4.0), 1.0 / lib.sqrt(1.0)];
  }

  lemma ExampleClassicalMatrix()
    ensures Classical(ExampleStiffness(), [0.5, 1.0]) == ExampleClassical()
  {
    ClassicalEntries(ExampleStiffness(), [0.5, 1.0]);
    MatrixExt(Classical(ExampleStiffness(), [0.5, 1.0]), ExampleClassical(), 2, 2);
  }

  lemma ExampleSweepOrder()
    ensures SweepOrder(2) == [(0, 1)]
  {
    assert RowPairs(2, 0, 1) == [(0, 1)];
  }

  /** One sweep of the example is the single rotation in the plane (0, 1). */
  lemma ExampleJacobi(lib: MathLib)
    requires Lawful(lib)
    ensures MassScaling(lib, ExampleMass()).Ok?
    ensures JacobiOf(lib, ExampleStiffness(), ExampleMass(), 1)
         == JacobiState(Rotate(lib, ExampleClassical(), 0, 1), PlaneRotation(lib, ExampleClassical(), 0, 1), 1)
  {
    ExampleScaling(lib);
    ExampleClassicalMatrix();
    SingleSweep(lib, ExampleClassical());
  }

  /** On two storeys one sweep is one rotation, applied to the identity frame. */
  lemma SingleSweep(lib: MathLib, A: Matrix)
    requires IsSquare(A, 2)
    ensures Sweeps(lib, JacobiState(A, Identity(2), 0), 1)
         == JacobiState(Rotate(lib, A, 0, 1), PlaneRotation(lib, A, 0, 1), 1)
  {
    ExampleSweepOrder();
    var st := JacobiState(A, Identity(2), 0);
    assert Sweeps(lib, st, 1) == Run(lib, st, [(0, 1)]);
    RunCons(lib, st, 0, 1, []);
    assert [(0, 1)] + [] == [(0, 1)];
    IdentityLeft(PlaneRotation(lib, A, 0, 1));
  }

  /** With equal diagonal entries θ = pi/4, so c = s and c² + s² = 1. */
  lemma ExampleAngle(lib: MathLib)
    requires Lawful(lib)
    ensures var theta := Theta(lib, 1.0, 1.0, -0.5);
      lib.sin(theta) == lib.cos(theta) && lib.sin(theta) * lib.sin(theta) + lib.cos(theta) * lib.cos(theta) == 1.0
  {
    var theta := Theta(lib, 1.0, 1.0, -0.5);
    assert theta == lib.pi / 4.0;
  }

  /** The two columns of the rotation, (c, s) and (-s, c). */
  lemma ExampleColumns(lib: MathLib)
    ensures var theta := Theta(lib, 1.0, 1.0, -0.5);
      var c, s := lib.cos(theta), lib.sin(theta);
      var P := PlaneRotation(lib, ExampleClassical(), 0, 1);
      Column(P, 0) == [c, s] && Column(P, 1) == [-s, c]
  {
    var A := ExampleClassical();
    assert Theta(lib, A[0][0], A[1][1], A[0][1]) == Theta(lib, 1.0, 1.0, -0.5);
  }

  /** The rotated diagonal holds the eigenvalues 1/2 and 3/2 of the classical
      matrix. */
  lemma ExampleRotatedDiagonal(lib: MathLib)
    requires Lawful(lib)
    ensures var B := Rotate(lib, ExampleClassical(), 0, 1);
      B[0][0] == 0.5 && B[1][1] == 1.5
  {
    var A := ExampleClassical();
    var theta := Theta(lib, 1.0, 1.0, -0.5);
    assert Theta(lib, A[0][0], A[1][1], A[0][1]) == theta;
    RotateClosedForm(lib, A, 0, 1);
    MixCornerII(A, 0, 1, lib.cos(theta), lib.sin(theta));
    MixCornerJJ(A, 0, 1, lib.cos(theta), lib.sin(theta));
    ExampleCorners(lib);
  }

  /** With c = s = cos(pi/4) the rotated diagonal of [[1, -1/2], [-1/2, 1]]
      is 1 - c·s = 1/2 and 1 + c·s = 3/2. */
  lemma ExampleCorners(lib: MathLib)
    requires Lawful(lib)
    ensures var theta := Theta(lib, 1.0, 1.0, -0.5);
      Corner(lib.cos(theta), lib.sin(theta), lib.cos(theta), lib.sin(theta), 1.0, -0.5, -0.5, 1.0) == 0.5
    ensures var theta := Theta(lib, 1.0, 1.0, -0.5);
      Corner(-lib.sin(theta), lib.cos(theta), -lib.sin(theta), lib.cos(theta), 1.0, -0.5, -0.5, 1.0) == 1.5
  {
    ExampleAngle(lib);
    var theta := Theta(lib, 1.0, 1.0, -0.5);
    QuarterCorners(lib.cos(theta), lib.sin(theta));
  }

  /** On the unit circle with c = s the two corners are 1/2 and 3/2. */
  lemma QuarterCorners(c: real, s: real)
    requires s == c && s * s + c * c == 1.0
    ensures Corner(c, s, c, s, 1.0, -0.5, -0.5, 1.0) == 0.5
    ensures Corner(-s, c, -s, c, 1.0, -0.5, -0.5, 1.0) == 1.5
  {
    assert c * s == 0.5;
  }

  /** The m-form of two vectors of length two against a diagonal m. */
  lemma DiagonalForm(u: Vector, m: Matrix, v: Vector)
    requires |u| == 2 && |v| == 2 && IsSquare(m, 2) && IsDiagonal(m)
    ensures Bilinear(u, m, v) == m[0][0] * u[0] * v[0] + m[1][1] * u[1] * v[1]
  {
    DiagonalRowProduct(u, m);
    var h := Hadamard(Diagonal(m), u);
    assert Dot(h, v) == DotTo(h, v, 1) + h[1] * v[1];
    assert DotTo(h, v, 1) == h[0] * v[0];
  }

  /** The raw Jacobi columns against m: both have modal mass 5/2 and their
      cross term is -3/2, so they are not m-orthogonal. */
  lemma ExampleRawForms(lib: MathLib)
    requires Lawful(lib)
    ensures var P := PlaneRotation(lib, ExampleClassical(), 0, 1);
      var M := ExampleMass();
      && QuadForm(Column(P, 0), M) == 2.5 && QuadForm(Column(P, 1), M) == 2.5
      && Bilinear(Column(P, 0), M, Column(P, 1)) == -1.5
      && Bilinear(Column(P, 1), M, Column(P, 0)) == -1.5
  {
    var P := PlaneRotation(lib, ExampleClassical(), 0, 1);
    var M := ExampleMass();
    var theta := Theta(lib, 1.0, 1.0, -0.5);
    ExampleAngle(lib);
    ExampleColumns(lib);
    RawForms(Column(P, 0), Column(P, 1), M, lib.cos(theta), lib.sin(theta));
  }

  /** The m-forms of (c, s) and (-s, c) against diag(4, 1) when c = s is on
      the unit circle. */
  lemma RawForms(u: Vector, v: Vector, m: Matrix, c: real, s: real)
    requires u == [c, s] && v == [-s, c] && m == ExampleMass()
    requires s == c && s * s + c * c == 1.0
    ensures QuadForm(u, m) == 2.5 && QuadForm(v, m) == 2.5
    ensures Bilinear(u, m, v) == -1.5 && Bilinear(v, m, u) == -1.5
  {
    DiagonalForm(u, m, u);
    DiagonalForm(v, m, v);
    DiagonalForm(u, m, v);
    DiagonalForm(v, m, u);
  }

  /** Normalising two vectors of equal modal mass q scales their cross term
      by 1/q. */
  lemma NormalisedCross(lib: MathLib, u: Vector, v: Vector, m: Matrix, q: real, x: real)
    requires Lawful(lib) && IsSquare(m, |u|) && |v| == |u| && q > 0.0
    requires QuadForm(u, m) == q && QuadForm(v, m) == q && Bilinear(u, m, v) == x
    ensures Normalised(lib, u, m).Ok? && Normalised(lib, v, m).Ok?
    ensures Bilinear(Normalised(lib, u, m).value, m, Normalised(lib, v, m).value) == x / q
  {
    assert Normalised(lib, u, m).value == ScaleVec(1.0 / lib.sqrt(q), u);
    assert Normalised(lib, v, m).value == ScaleVec(1.0 / lib.sqrt(q), v);
    ScaledCross(lib, u, m, v, q, x);
  }

  lemma ScaledCross(lib: MathLib, u: Vector, m: Matrix, v: Vector, q: real, x: real)
    requires Lawful(lib) && IsSquare(m, |u|) && |v| == |u| && q > 0.0 && Bilinear(u, m, v) == x
    ensures Bilinear(ScaleVec(1.0 / lib.sqrt(q), u), m, ScaleVec(1.0 / lib.sqrt(q), v)) == x / q
  {
    BilinearScale(u, m, v, 1.0 / lib.sqrt(q), 1.0 / lib.sqrt(q));
    InverseSquareScaling(lib, q, x, Bilinear(ScaleVec(1.0 / lib.sqrt(q), u), m, ScaleVec(1.0 / lib.sqrt(q), v)));
  }

  /** Scaling by (1/√q)² divides by q. */
  lemma InverseSquareScaling(lib: MathLib, q: real, b: real, y: real)
    requires Lawful(lib) && q > 0.0
    requires y == 1.0 / lib.sqrt(q) * (1.0 / lib.sqrt(q)) * b
    ensures y == b / q
  {
    ReciprocalRoot(lib, q);
    var a := 1.0 / lib.sqrt(q);
    assert a * a == 1.0 / q;
  }

  /** As written, one sweep on the example gives two modes whose shapes have a
      cross term of -3/5 against m, where mass-orthonormal shapes have 0. */
  lemma AsWrittenModes(lib: MathLib)
    requires Lawful(lib)
    ensures MassScaling(lib, ExampleMass()).Ok?
    ensures var st := JacobiOf(lib, ExampleStiffness(), ExampleMass(), 1);
      var modes := InitialModes(lib, ExampleMass(), st.ak, st.phi);
      && modes.Ok?
      && Bilinear(modes.value[0].shape, ExampleMass(), modes.value[1].shape) == -0.6
      && Bilinear(modes.value[1].shape, ExampleMass(), modes.value[0].shape) == -0.6
  {
    ExampleJacobi(lib);
    ExampleRotatedDiagonal(lib);
    ExampleRawForms(lib);
    var A := ExampleClassical();
    var M := ExampleMass();
    var st := JacobiOf(lib, ExampleStiffness(), M, 1);
    var P := st.phi;
    ModeOfFacts(lib, M, st.ak, P, 0);
    ModeOfFacts(lib, M, st.ak, P, 1);
    NormalisedCross(lib, Column(P, 0), Column(P, 1), M, 2.5, -1.5);
    NormalisedCross(lib, Column(P, 1), Column(P, 0), M, 2.5, -1.5);
  }

  /** Whatever order the sort leaves them in, the shapes `Modos` as written
      returns for the example break Φᵀ·m·Φ = I. */
  lemma AsWrittenNotMassOrthonormal(lib: MathLib, r: Modal, perm: seq<nat>)
    requires Lawful(lib) && MassScaling(lib, ExampleMass()).Ok?
    requires var st := JacobiOf(lib, ExampleStiffness(), ExampleMass(), 1);
      Describes(lib, ExampleMass(), st.ak, st.phi, r, perm)
    ensures !MassOrthonormal(ExampleMass(), r)
  {
    var M := ExampleMass();
    var st := JacobiOf(lib, ExampleStiffness(), M, 1);
    AsWrittenModes(lib);
    ListedCross(lib, M, st.ak, st.phi, r, perm, -0.6);
    CrossBreaksIdentity(r.phi, M, -0.6);
  }

  /** On two storeys the listed shapes, in either order, keep the cross term
      the two modes found have in both orders. */
  lemma ListedCross(lib: MathLib, m: Matrix, ak: Matrix, raw: Matrix, r: Modal, perm: seq<nat>, x: real)
    requires |ak| == 2 && IsSquare(ak, 2) && IsSquare(m, 2) && IsSquare(raw, 2)
    requires Lists(lib, m, ak, raw, r, perm)
    requires var modes := InitialModes(lib, m, ak, raw).value;
      Bilinear(modes[0].shape, m, modes[1].shape) == x && Bilinear(modes[1].shape, m, modes[0].shape) == x
    ensures IsMatrix(r.phi, 2, 2) && Bilinear(Column(r.phi, 0), m, Column(r.phi, 1)) == x
  {
    var modes := InitialModes(lib, m, ak, raw).value;
    ResultColumn(lib, m, ak, raw, r, perm, 0);
    ResultColumn(lib, m, ak, raw, r, perm, 1);
    assert perm[0] != perm[1];
    SwappedPair(Column(r.phi, 0), Column(r.phi, 1), m, modes[0].shape, modes[1].shape, x, perm[0] == 0);
  }

  /** The cross term of a pair taken in either order. */
  lemma SwappedPair(u: Vector, v: Vector, m: Matrix, a: Vector, b: Vector, x: real, inOrder: bool)
    requires IsSquare(m, |a|) && |b| == |a| && Bilinear(a, m, b) == x && Bilinear(b, m, a) == x
    requires if inOrder then u == a && v == b else u == b && v == a
    ensures Bilinear(u, m, v) == x
  {
  }

  /** A nonzero cross term between the first two columns keeps Φᵀ·m·Φ off the
      identity. */
  lemma CrossBreaksIdentity(phi: Matrix, m: Matrix, x: real)
    requires IsMatrix(phi, 2, 2) && IsSquare(m, 2)
    requires Bilinear(Column(phi, 0), m, Column(phi, 1)) == x && x != 0.0
    ensures MatMul(MatMul(Transpose(phi), m), phi) != Identity(2)
  {
    CongruenceEntries(phi, m, 2);
    var G := MatMul(MatMul(Transpose(phi), m), phi);
    assert G[0][1] == x;
    assert Identity(2)[0][1] == 0.0;
  }

  // ---------------------------------------------------------------------
  // Equal floor masses, as in the simulation view

  /** Every floor carries the same positive mass, as `mdof` builds it. */
  predicate EqualMasses(m: Matrix)
    requires IsSquare(m, |m|)
  {
    |m| > 0 && m[0][0] > 0.0 && forall x :: 0 <= x < |m| ==> m[x][x] == m[0][0]
  }

  /** With equal masses mu, a vector of unit length has modal mass mu. */
  lemma EqualMassForm(m: Matrix, c: Vector)
    requires IsSquare(m, |c|) && IsDiagonal(m) && EqualMasses(m) && Dot(c, c) == 1.0
    ensures QuadForm(c, m) == m[0][0]
  {
    DiagonalRowProduct(c, m);
    var h := Hadamard(Diagonal(m), c);
    DotComm(h, c);
    DotScale(c, c, m[0][0], h);
  }

  /** With equal masses mu the scaling r is 1/sqrt(mu) on every floor. */
  lemma EqualMassScaling(lib: MathLib, m: Matrix)
    requires Lawful(lib) && IsSquare(m, |m|) && EqualMasses(m)
    ensures MassScaling(lib, m).Ok?
    ensures forall x :: 0 <= x < |m| ==> MassScaling(lib, m).value[x] == 1.0 / lib.sqrt(m[0][0])
  {
    assert PositiveMasses(m);
  }

  /** As written: a unit vector is divided by sqrt(mu). */
  lemma EqualMassAsWritten(lib: MathLib, m: Matrix, c: Vector, a: real)
    requires Lawful(lib) && IsSquare(m, |c|) && IsDiagonal(m) && EqualMasses(m) && Dot(c, c) == 1.0
    requires a == 1.0 / lib.sqrt(m[0][0])
    ensures Normalised(lib, c, m) == Ok(ScaleVec(a, c))
  {
    SqrtBounds(lib, m[0][0]);
    EqualMassForm(m, c);
  }

  /** Corrected: a·c with a² · mu = 1 already has unit modal mass. */
  lemma EqualMassCorrected(lib: MathLib, m: Matrix, c: Vector, a: real)
    requires Lawful(lib) && IsSquare(m, |c|) && IsDiagonal(m) && EqualMasses(m) && Dot(c, c) == 1.0
    requires a * a * m[0][0] == 1.0
    ensures Normalised(lib, ScaleVec(a, c), m) == Ok(ScaleVec(a, c))
  {
    EqualMassForm(m, c);
    BilinearScale(c, m, c, a, a);
    NormalisedKeepsUnit(lib, ScaleVec(a, c), m);
  }

  /** Scaling by a constant vector is scaling by that constant. */
  lemma EqualMassHadamard(s: Vector, c: Vector, a: real)
    requires |s| == |c| && forall x :: 0 <= x < |s| ==> s[x] == a
    ensures Hadamard(s, c) == ScaleVec(a, c)
  {
    var L, R := Hadamard(s, c), ScaleVec(a, c);
    assert forall x :: 0 <= x < |s| ==> L[x] == R[x];
  }

  /** A unit vector c and its image s·c under a constant scaling s = 1/sqrt(mu)
      normalise to the same shape. */
  lemma EqualMassPair(lib: MathLib, m: Matrix, c: Vector, s: Vector, a: real)
    requires Lawful(lib) && IsSquare(m, |c|) && IsDiagonal(m) && EqualMasses(m) && Dot(c, c) == 1.0
    requires a == 1.0 / lib.sqrt(m[0][0]) && a * a * m[0][0] == 1.0
    requires |s| == |c| && forall x :: 0 <= x < |s| ==> s[x] == a
    ensures Normalised(lib, c, m) == Normalised(lib, Hadamard(s, c), m)
  {
    EqualMassAsWritten(lib, m, c, a);
    EqualMassHadamard(s, c, a);
    EqualMassCorrected(lib, m, c, a);
  }

  /** With equal masses, normalising a unit Jacobi vector against m gives the
      same shape as normalising its image r·psi. */
  lemma EqualMassColumn(lib: MathLib, m: Matrix, psi: Matrix, i: nat)
    requires Lawful(lib) && IsSquare(m, |m|) && IsDiagonal(m) && EqualMasses(m)
    requires IsSquare(psi, |m|) && i < |m| && Dot(Column(psi, i), Column(psi, i)) == 1.0
    ensures MassScaling(lib, m).Ok?
    ensures Normalised(lib, Column(psi, i), m)
         == Normalised(lib, Column(ScaledShapes(MassScaling(lib, m).value, psi), i), m)
  {
    EqualMassScaling(lib, m);
    var s := MassScaling(lib, m).value;
    ScaledShapeColumns(s, psi, i);
    ReciprocalRoot(lib, m[0][0]);
    EqualMassPair(lib, m, Column(psi, i), s, 1.0 / lib.sqrt(m[0][0]));
  }

  /** With equal masses and orthonormal Jacobi vectors, the modes `Modos` as
      written finds are exactly the modes of the corrected shapes r·psi. */
  lemma EqualMassModes(lib: MathLib, m: Matrix, ak: Matrix, psi: Matrix)
    requires Lawful(lib) && IsSquare(m, |m|) && IsDiagonal(m) && EqualMasses(m)
    requires IsSquare(ak, |m|) && IsSquare(psi, |m|) && OrthonormalColumns(psi)
    ensures MassScaling(lib, m).Ok?
    ensures InitialModes(lib, m, ak, psi) == InitialModes(lib, m, ak, ScaledShapes(MassScaling(lib, m).value, psi))
  {
    assert PositiveMasses(m);
    var raw := ScaledShapes(MassScaling(lib, m).value, psi);
    forall i | 0 <= i < |m|
      ensures ModeOf(lib, m, ak, psi, i) == ModeOf(lib, m, ak, raw, i)
    {
      EqualMassColumn(lib, m, psi, i);
    }
    var L, R := InitialModes(lib, m, ak, psi), InitialModes(lib, m, ak, raw);
    if L.Ok? {
      assert L.value == R.value;
    }
  }

  /** In the simulation view every floor has the same mass, so r is a multiple
      of the identity and the shapes `Modos` as written returns are
      mass-orthonormal after all: the defect does not show there. */
  lemma EqualMassesHideFinding(lib: MathLib, k: Matrix, m: Matrix, iterations: nat, r: Modal, perm: seq<nat>)
    requires Lawful(lib) && IsSquare(k, |k|) && IsSquare(m, |k|) && IsDiagonal(m) && EqualMasses(m)
    requires MassScaling(lib, m).Ok?
    requires var st := JacobiOf(lib, k, m, iterations);
      Describes(lib, m, st.ak, st.phi, r, perm)
    ensures MassOrthonormal(m, r)
  {
    var s := MassScaling(lib, m).value;
    var st := JacobiOf(lib, k, m, iterations);
    var psi := st.phi;
    var raw := ScaledShapes(s, psi);
    IdentityOrthogonal(|k|);
    SweepsOrthogonal(lib, JacobiState(Classical(k, s), Identity(|k|), 0), iterations);
    OrthogonalByColumns(psi);
    EqualMassModes(lib, m, st.ak, psi);
    assert Lists(lib, m, st.ak, raw, r, perm);
    ScaledShapesOrthonormal(m, s, psi);
    forall i | 0 <= i < |m|
      ensures Normalised(lib, Column(raw, i), m) == Ok(Column(raw, i))
    {
      NormalisedKeepsUnit(lib, Column(raw, i), m);
    }
    ResultOrthonormal(lib, m, st.ak, raw, r, perm);
  }
}
