/** One Jacobi rotation (`Jacobi.θ` and `Jacobi.P`, and the update
    `Ak ← Pᵀ·Ak·P`, `Φ ← Φ·P` of `Jacobi.un_ciclo`). The products are computed
    as full matrix products, as numpy does; the lemmas show which entries they
    touch, that P is orthogonal, that symmetry survives, and that the chosen
    angle clears the pivot entry. */
module JacobiRotation {
  import opened LinAlg
  import opened Transcendental

  /** `θ(aii, ajj, aij)`: half the arctangent of 2·aij/(aii − ajj), or π/4 on a tie. */
  function Theta(lib: MathLib, aii: real, ajj: real, aij: real): real {
    if aii != ajj then 0.5 * lib.atan(2.0 * aij / (aii - ajj)) else lib.pi / 4.0
  }

  /** Entry (r, q) of the rotation in the plane (i, j) with cosine c and sine s. */
  function RotationEntry(i: nat, j: nat, c: real, s: real, r: nat, q: nat): real {
    if r == i && q == i then c
    else if r == j && q == j then c
    else if r == i && q == j then -s
    else if r == j && q == i then s
    else if r == q then 1.0
    else 0.0
  }

  function Rotation(t: nat, i: nat, j: nat, c: real, s: real): (P: Matrix)
    ensures IsSquare(P, t)
    ensures forall r, q :: 0 <= r < t && 0 <= q < t ==> P[r][q] == RotationEntry(i, j, c, s, r, q)
  {
    seq(t, r requires 0 <= r < t => seq(t, q requires 0 <= q < t => RotationEntry(i, j, c, s, r, q)))
  }

  /** `P(Ak, i, j)`: the rotation whose angle is θ of the current pivot entries. */
  function PlaneRotation(lib: MathLib, A: Matrix, i: nat, j: nat): (P: Matrix)
    requires IsSquare(A, |A|) && i < j < |A|
    ensures IsSquare(P, |A|)
    ensures forall r, q :: 0 <= r < |A| && 0 <= q < |A| && ((r != i && r != j) || (q != i && q != j)) ==>
      P[r][q] == (if r == q then 1.0 else 0.0)
  {
    var theta := Theta(lib, A[i][i], A[j][j], A[i][j]);
    Rotation(|A|, i, j, lib.cos(theta), lib.sin(theta))
  }

  /** Pᵀ·A in closed form: rows i and j are mixed, every other row is kept. */
  function RowMix(A: Matrix, i: nat, j: nat, c: real, s: real): (B: Matrix)
    requires Rect(A) && i < |A| && j < |A|
    ensures IsMatrix(B, |A|, Cols(A))
  {
    seq(|A|, r requires 0 <= r < |A| => seq(Cols(A), q requires 0 <= q < Cols(A) =>
      if r == i then c * A[i][q] + s * A[j][q]
      else if r == j then -s * A[i][q] + c * A[j][q]
      else A[r][q]))
  }

  /** A·P in closed form: columns i and j are mixed, every other column is kept. */
  function ColMix(A: Matrix, i: nat, j: nat, c: real, s: real): (B: Matrix)
    requires Rect(A) && i < Cols(A) && j < Cols(A)
    ensures IsMatrix(B, |A|, Cols(A))
  {
    seq(|A|, r requires 0 <= r < |A| => seq(Cols(A), q requires 0 <= q < Cols(A) =>
      if q == i then c * A[r][i] + s * A[r][j]
      else if q == j then -s * A[r][i] + c * A[r][j]
      else A[r][q]))
  }

  /** Multiplying by Pᵀ on the left touches rows i and j only. */
  lemma LeftRotation(A: Matrix, t: nat, m: nat, i: nat, j: nat, c: real, s: real)
    requires IsMatrix(A, t, m) && i < j < t
    ensures MatMul(Transpose(Rotation(t, i, j, c, s)), A) == RowMix(A, i, j, c, s)
  {
    var P := Rotation(t, i, j, c, s);
    var PT := Transpose(P);
    var L := MatMul(PT, A);
    var R := RowMix(A, i, j, c, s);
    forall r, q | 0 <= r < t && 0 <= q < m
      ensures L[r][q] == R[r][q]
    {
      LeftRotationEntry(A, t, m, i, j, c, s, r, q);
    }
    MatrixExt(L, R, t, m);
  }

  lemma LeftRotationEntry(A: Matrix, t: nat, m: nat, i: nat, j: nat, c: real, s: real, r: nat, q: nat)
    requires IsMatrix(A, t, m) && i < j < t && r < t && q < m
    ensures MatMul(Transpose(Rotation(t, i, j, c, s)), A)[r][q] == RowMix(A, i, j, c, s)[r][q]
  {
    var PT := Transpose(Rotation(t, i, j, c, s));
    assert MatMul(PT, A)[r][q] == Dot(PT[r], Column(A, q));
    if r == i || r == j {
      LeftMixedRow(A, t, m, i, j, c, s, r, q);
    } else {
      LeftKeptRow(A, t, m, i, j, c, s, r, q);
    }
  }

  lemma LeftMixedRow(A: Matrix, t: nat, m: nat, i: nat, j: nat, c: real, s: real, r: nat, q: nat)
    requires IsMatrix(A, t, m) && i < j < t && q < m && (r == i || r == j)
    ensures Dot(Transpose(Rotation(t, i, j, c, s))[r], Column(A, q)) == RowMix(A, i, j, c, s)[r][q]
  {
    DotPair(Transpose(Rotation(t, i, j, c, s))[r], Column(A, q), i, j);
  }

  lemma LeftKeptRow(A: Matrix, t: nat, m: nat, i: nat, j: nat, c: real, s: real, r: nat, q: nat)
    requires IsMatrix(A, t, m) && i < j < t && r < t && q < m && r != i && r != j
    ensures Dot(Transpose(Rotation(t, i, j, c, s))[r], Column(A, q)) == A[r][q]
  {
    DotSingle(Transpose(Rotation(t, i, j, c, s))[r], Column(A, q), r);
  }

  /** Multiplying by P on the right touches columns i and j only. */
  lemma RightRotation(A: Matrix, m: nat, t: nat, i: nat, j: nat, c: real, s: real)
    requires IsMatrix(A, m, t) && 0 < m && i < j < t
    ensures MatMul(A, Rotation(t, i, j, c, s)) == ColMix(A, i, j, c, s)
  {
    var P := Rotation(t, i, j, c, s);
    var L := MatMul(A, P);
    var R := ColMix(A, i, j, c, s);
    forall r, q | 0 <= r < m && 0 <= q < t
      ensures L[r][q] == R[r][q]
    {
      RightRotationEntry(A, m, t, i, j, c, s, r, q);
    }
    MatrixExt(L, R, m, t);
  }

  lemma RightRotationEntry(A: Matrix, m: nat, t: nat, i: nat, j: nat, c: real, s: real, r: nat, q: nat)
    requires IsMatrix(A, m, t) && 0 < m && i < j < t && r < m && q < t
    ensures MatMul(A, Rotation(t, i, j, c, s))[r][q] == ColMix(A, i, j, c, s)[r][q]
  {
    var col := Column(Rotation(t, i, j, c, s), q);
    assert MatMul(A, Rotation(t, i, j, c, s))[r][q] == Dot(A[r], col);
    if q == i || q == j {
      DotPairRight(A[r], col, i, j);
    } else {
      DotSingleRight(A[r], col, q);
    }
  }

  /** QᵀQ = I: the columns of Q are orthonormal. */
  ghost predicate Orthogonal(Q: Matrix)
    requires IsSquare(Q, |Q|)
  {
    MatMul(Transpose(Q), Q) == Identity(|Q|)
  }

  /** Given cos² + sin² = 1, the rotation is orthogonal. */
  lemma RotationOrthogonal(t: nat, i: nat, j: nat, c: real, s: real)
    requires i < j < t && c * c + s * s == 1.0
    ensures Orthogonal(Rotation(t, i, j, c, s))
  {
    var P := Rotation(t, i, j, c, s);
    LeftRotation(P, t, t, i, j, c, s);
    var B := RowMix(P, i, j, c, s);
    forall r, q | 0 <= r < t && 0 <= q < t
      ensures B[r][q] == Identity(t)[r][q]
    {
      RotationGramEntry(t, i, j, c, s, r, q);
    }
    MatrixExt(B, Identity(t), t, t);
  }

  /** Entry (r, q) of Pᵀ·P, computed as the row mix of P. */
  lemma RotationGramEntry(t: nat, i: nat, j: nat, c: real, s: real, r: nat, q: nat)
    requires i < j < t && c * c + s * s == 1.0 && r < t && q < t
    ensures RowMix(Rotation(t, i, j, c, s), i, j, c, s)[r][q] == Identity(t)[r][q]
  {
    if r == i {
      GramRowI(t, i, j, c, s, q);
    } else if r == j {
      GramRowJ(t, i, j, c, s, q);
    }
  }

  lemma GramRowI(t: nat, i: nat, j: nat, c: real, s: real, q: nat)
    requires i < j < t && c * c + s * s == 1.0 && q < t
    ensures RowMix(Rotation(t, i, j, c, s), i, j, c, s)[i][q] == Identity(t)[i][q]
  {
    var P := Rotation(t, i, j, c, s);
    var u, v := P[i][q], P[j][q];
    UnitCoefficients(c, s);
    assert RowMix(P, i, j, c, s)[i][q] == c * u + s * v;
    if q == i {
      Comb(c, s, u, v, c, s);
    } else if q == j {
      Comb(c, s, u, v, -s, c);
    } else {
      Comb(c, s, u, v, 0.0, 0.0);
    }
  }

  lemma GramRowJ(t: nat, i: nat, j: nat, c: real, s: real, q: nat)
    requires i < j < t && c * c + s * s == 1.0 && q < t
    ensures RowMix(Rotation(t, i, j, c, s), i, j, c, s)[j][q] == Identity(t)[j][q]
  {
    var P := Rotation(t, i, j, c, s);
    var u, v := P[i][q], P[j][q];
    UnitCoefficients(c, s);
    assert RowMix(P, i, j, c, s)[j][q] == -s * u + c * v;
    if q == i {
      Comb(-s, c, u, v, c, s);
    } else if q == j {
      Comb(-s, c, u, v, -s, c);
    } else {
      Comb(-s, c, u, v, 0.0, 0.0);
    }
  }

  /** The update `Pᵀ @ A @ P` of one rotation, with the angle read from A. */
  function Rotate(lib: MathLib, A: Matrix, i: nat, j: nat): (B: Matrix)
    requires IsSquare(A, |A|) && i < j < |A|
    ensures IsSquare(B, |A|)
  {
    var P := PlaneRotation(lib, A, i, j);
    MatMul(MatMul(Transpose(P), A), P)
  }

  /** Rotate in closed form: entries outside rows and columns i, j are untouched. */
  lemma RotateClosedForm(lib: MathLib, A: Matrix, i: nat, j: nat)
    requires IsSquare(A, |A|) && i < j < |A|
    ensures var theta := Theta(lib, A[i][i], A[j][j], A[i][j]);
      var c, s := lib.cos(theta), lib.sin(theta);
      Rotate(lib, A, i, j) == ColMix(RowMix(A, i, j, c, s), i, j, c, s)
  {
    var t := |A|;
    var theta := Theta(lib, A[i][i], A[j][j], A[i][j]);
    var c, s := lib.cos(theta), lib.sin(theta);
    LeftRotation(A, t, t, i, j, c, s);
    RightRotation(RowMix(A, i, j, c, s), t, t, i, j, c, s);
  }

  /** A corner of the two-sided mix: row weights (c1, s1) on rows i, j and
      column weights (c2, s2) on columns i, j. */
  function Corner(c1: real, s1: real, c2: real, s2: real, aii: real, aij: real, aji: real, ajj: real): real {
    c2 * (c1 * aii + s1 * aji) + s2 * (c1 * aij + s1 * ajj)
  }

  /** Entry (r, q) of the two-sided mix, written out in terms of A. */
  function MixEntry(A: Matrix, i: nat, j: nat, c: real, s: real, r: nat, q: nat): real
    requires IsSquare(A, |A|) && i < j < |A| && r < |A| && q < |A|
  {
    if r == i && q == i then Corner(c, s, c, s, A[i][i], A[i][j], A[j][i], A[j][j])
    else if r == i && q == j then Corner(c, s, -s, c, A[i][i], A[i][j], A[j][i], A[j][j])
    else if r == j && q == i then Corner(-s, c, c, s, A[i][i], A[i][j], A[j][i], A[j][j])
    else if r == j && q == j then Corner(-s, c, -s, c, A[i][i], A[i][j], A[j][i], A[j][j])
    else if r == i then c * A[i][q] + s * A[j][q]
    else if r == j then -s * A[i][q] + c * A[j][q]
    else if q == i then c * A[r][i] + s * A[r][j]
    else if q == j then -s * A[r][i] + c * A[r][j]
    else A[r][q]
  }

  lemma MixEntries(A: Matrix, i: nat, j: nat, c: real, s: real)
    requires IsSquare(A, |A|) && i < j < |A|
    ensures forall r, q :: 0 <= r < |A| && 0 <= q < |A| ==>
      ColMix(RowMix(A, i, j, c, s), i, j, c, s)[r][q] == MixEntry(A, i, j, c, s, r, q)
  {
    forall r, q | 0 <= r < |A| && 0 <= q < |A|
      ensures ColMix(RowMix(A, i, j, c, s), i, j, c, s)[r][q] == MixEntry(A, i, j, c, s, r, q)
    {
      MixEntryAt(A, i, j, c, s, r, q);
    }
  }

  lemma MixEntryAt(A: Matrix, i: nat, j: nat, c: real, s: real, r: nat, q: nat)
    requires IsSquare(A, |A|) && i < j < |A| && r < |A| && q < |A|
    ensures ColMix(RowMix(A, i, j, c, s), i, j, c, s)[r][q] == MixEntry(A, i, j, c, s, r, q)
  {
    if r == i && q == i {
      MixCornerII(A, i, j, c, s);
    } else if r == i && q == j {
      MixCornerIJ(A, i, j, c, s);
    } else if r == j && q == i {
      MixCornerJI(A, i, j, c, s);
    } else if r == j && q == j {
      MixCornerJJ(A, i, j, c, s);
    }
  }

  lemma MixCornerII(A: Matrix, i: nat, j: nat, c: real, s: real)
    requires IsSquare(A, |A|) && i < j < |A|
    ensures ColMix(RowMix(A, i, j, c, s), i, j, c, s)[i][i] == Corner(c, s, c, s, A[i][i], A[i][j], A[j][i], A[j][j])
  {
  }

  lemma MixCornerIJ(A: Matrix, i: nat, j: nat, c: real, s: real)
    requires IsSquare(A, |A|) && i < j < |A|
    ensures ColMix(RowMix(A, i, j, c, s), i, j, c, s)[i][j] == Corner(c, s, -s, c, A[i][i], A[i][j], A[j][i], A[j][j])
  {
  }

  lemma MixCornerJI(A: Matrix, i: nat, j: nat, c: real, s: real)
    requires IsSquare(A, |A|) && i < j < |A|
    ensures ColMix(RowMix(A, i, j, c, s), i, j, c, s)[j][i] == Corner(-s, c, c, s, A[i][i], A[i][j], A[j][i], A[j][j])
  {
  }

  lemma MixCornerJJ(A: Matrix, i: nat, j: nat, c: real, s: real)
    requires IsSquare(A, |A|) && i < j < |A|
    ensures ColMix(RowMix(A, i, j, c, s), i, j, c, s)[j][j] == Corner(-s, c, -s, c, A[i][i], A[i][j], A[j][i], A[j][j])
  {
  }

  lemma PivotPairSymmetric(aii: real, ajj: real, aij: real, aji: real, c: real, s: real)
    requires aij == aji
    ensures Corner(c, s, -s, c, aii, aij, aji, ajj) == Corner(-s, c, c, s, aii, aij, aji, ajj)
  {
  }

  lemma MixEntrySymmetric(A: Matrix, i: nat, j: nat, c: real, s: real, r: nat, q: nat)
    requires IsSquare(A, |A|) && i < j < |A| && r < |A| && q < |A| && Symmetric(A)
    ensures MixEntry(A, i, j, c, s, r, q) == MixEntry(A, i, j, c, s, q, r)
  {
    if (r == i && q == j) || (r == j && q == i) {
      PivotPairSymmetric(A[i][i], A[j][j], A[i][j], A[j][i], c, s);
    } else if r == i || r == j {
      assert A[i][q] == A[q][i] && A[j][q] == A[q][j];
    } else if q == i || q == j {
      assert A[r][i] == A[i][r] && A[r][j] == A[j][r];
    } else {
      assert A[r][q] == A[q][r];
    }
  }

  /** The two-sided mix keeps a symmetric matrix symmetric, whatever c and s. */
  lemma MixSymmetric(A: Matrix, i: nat, j: nat, c: real, s: real)
    requires IsSquare(A, |A|) && i < j < |A| && Symmetric(A)
    ensures Symmetric(ColMix(RowMix(A, i, j, c, s), i, j, c, s))
  {
    var C := ColMix(RowMix(A, i, j, c, s), i, j, c, s);
    MixEntries(A, i, j, c, s);
    forall r, q | 0 <= r < |A| && 0 <= q < |A|
      ensures C[r][q] == C[q][r]
    {
      MixEntrySymmetric(A, i, j, c, s, r, q);
    }
  }

  /** `Pᵀ·Ak·P` is symmetric whenever Ak is. */
  lemma RotateSymmetric(lib: MathLib, A: Matrix, i: nat, j: nat)
    requires IsSquare(A, |A|) && i < j < |A| && Symmetric(A)
    ensures Symmetric(Rotate(lib, A, i, j))
  {
    var theta := Theta(lib, A[i][i], A[j][j], A[i][j]);
    RotateClosedForm(lib, A, i, j);
    MixSymmetric(A, i, j, lib.cos(theta), lib.sin(theta));
  }

  /** The pivot entry after the two-sided mix, for a symmetric matrix. */
  lemma MixPivot(A: Matrix, i: nat, j: nat, c: real, s: real)
    requires IsSquare(A, |A|) && i < j < |A| && Symmetric(A)
    ensures ColMix(RowMix(A, i, j, c, s), i, j, c, s)[i][j] == PivotResidual(c, s, A[i][i], A[j][j], A[i][j])
  {
    MixEntries(A, i, j, c, s);
  }

  /** The rotated pivot `(c² - s²)·aij - c·s·(aii - ajj)` as a function of the
      rotation and the old entries. */
  function PivotResidual(c: real, s: real, aii: real, ajj: real, aij: real): real {
    (c * c - s * s) * aij - c * s * (aii - ajj)
  }

  /** The angle θ is chosen so that the rotated pivot vanishes. */
  lemma ThetaClearsPivot(lib: MathLib, aii: real, ajj: real, aij: real)
    requires Lawful(lib)
    ensures var theta := Theta(lib, aii, ajj, aij);
      PivotResidual(lib.cos(theta), lib.sin(theta), aii, ajj, aij) == 0.0
  {
    var theta := Theta(lib, aii, ajj, aij);
    var c, s := lib.cos(theta), lib.sin(theta);
    if aii != ajj {
      var d := aii - ajj;
      var y := 2.0 * aij / d;
      var a := lib.atan(y);
      assert HalfAngle(lib, a);
      PivotVanishes(c, s, lib.cos(a), lib.sin(a), y, aii, ajj, aij);
    } else {
      assert s == c;
    }
  }

  /** The double-angle identities with tan 2θ = 2·aij / (aii - ajj) cancel
      the rotated pivot. */
  lemma PivotVanishes(c: real, s: real, ca: real, sa: real, y: real, aii: real, ajj: real, aij: real)
    requires c * c - s * s == ca && 2.0 * s * c == sa && sa == y * ca
    requires y * (aii - ajj) == 2.0 * aij
    ensures PivotResidual(c, s, aii, ajj, aij) == 0.0
  {
    var d := aii - ajj;
    calc {
      (c * c - s * s) * aij - c * s * d;
      ca * aij - (y * ca / 2.0) * d;
      ca * (aij - y * d / 2.0);
      0.0;
    }
  }

  /** Each rotation zeroes the pivot pair (i, j) of a symmetric matrix. */
  lemma RotateClearsPivot(lib: MathLib, A: Matrix, i: nat, j: nat)
    requires Lawful(lib) && IsSquare(A, |A|) && i < j < |A| && Symmetric(A)
    ensures Rotate(lib, A, i, j)[i][j] == 0.0 && Rotate(lib, A, i, j)[j][i] == 0.0
  {
    RotatedPivot(lib, A, i, j);
    RotateSymmetric(lib, A, i, j);
  }

  lemma RotatedPivot(lib: MathLib, A: Matrix, i: nat, j: nat)
    requires Lawful(lib) && IsSquare(A, |A|) && i < j < |A| && Symmetric(A)
    ensures Rotate(lib, A, i, j)[i][j] == 0.0
  {
    var theta := Theta(lib, A[i][i], A[j][j], A[i][j]);
    RotateClosedForm(lib, A, i, j);
    MixPivot(A, i, j, lib.cos(theta), lib.sin(theta));
    ThetaClearsPivot(lib, A[i][i], A[j][j], A[i][j]);
  }

  /** Only rows and columns i and j of Ak change under a rotation. */
  lemma RotateFrame(lib: MathLib, A: Matrix, i: nat, j: nat)
    requires IsSquare(A, |A|) && i < j < |A|
    ensures forall r, q :: 0 <= r < |A| && 0 <= q < |A| && r != i && r != j && q != i && q != j ==>
      Rotate(lib, A, i, j)[r][q] == A[r][q]
  {
    RotateClosedForm(lib, A, i, j);
  }

  /** The accumulated product `Φ @ P` changes columns i and j only, mixing them. */
  lemma AccumulateFrame(lib: MathLib, A: Matrix, Q: Matrix, i: nat, j: nat)
    requires IsSquare(A, |A|) && IsSquare(Q, |A|) && i < j < |A|
    ensures var theta := Theta(lib, A[i][i], A[j][j], A[i][j]);
      MatMul(Q, PlaneRotation(lib, A, i, j)) == ColMix(Q, i, j, lib.cos(theta), lib.sin(theta))
  {
    var theta := Theta(lib, A[i][i], A[j][j], A[i][j]);
    RightRotation(Q, |A|, |A|, i, j, lib.cos(theta), lib.sin(theta));
  }

  /** Orthogonality read column by column. */
  ghost predicate OrthonormalColumns(Q: Matrix)
    requires IsSquare(Q, |Q|)
  {
    forall a, b :: 0 <= a < |Q| && 0 <= b < |Q| ==>
      Dot(Column(Q, a), Column(Q, b)) == (if a == b then 1.0 else 0.0)
  }

  lemma OrthogonalByColumns(Q: Matrix)
    requires IsSquare(Q, |Q|)
    ensures Orthogonal(Q) <==> OrthonormalColumns(Q)
  {
    var n := |Q|;
    var G := MatMul(Transpose(Q), Q);
    forall a | 0 <= a < n
      ensures Transpose(Q)[a] == Column(Q, a)
    {
    }
    if OrthonormalColumns(Q) {
      MatrixExt(G, Identity(n), n, n);
    }
    if Orthogonal(Q) {
      forall a, b | 0 <= a < n && 0 <= b < n
        ensures Dot(Column(Q, a), Column(Q, b)) == (if a == b then 1.0 else 0.0)
      {
        assert G[a][b] == Identity(n)[a][b];
      }
    }
  }

  /** Dot products with a combination a·x + b·y, on either side. */
  lemma DotCombination(x: Vector, y: Vector, a: real, b: real, w: Vector, u: Vector)
    requires |x| == |y| == |w| == |u|
    requires forall t :: 0 <= t < |w| ==> w[t] == a * x[t] + b * y[t]
    ensures Dot(w, u) == a * Dot(x, u) + b * Dot(y, u)
    ensures Dot(u, w) == a * Dot(u, x) + b * Dot(u, y)
  {
    DotLinear(u, x, y, a, b, w);
    DotLinearLeft(x, y, a, b, w, u);
  }

  /** Rotating an orthonormal pair gives an orthonormal pair. */
  lemma RotatedPair(x: Vector, y: Vector, xi: Vector, yj: Vector, c: real, s: real)
    requires |x| == |y| == |xi| == |yj| && c * c + s * s == 1.0
    requires Dot(x, x) == 1.0 && Dot(y, y) == 1.0 && Dot(x, y) == 0.0
    requires forall t :: 0 <= t < |x| ==> xi[t] == c * x[t] + s * y[t]
    requires forall t :: 0 <= t < |x| ==> yj[t] == -s * x[t] + c * y[t]
    ensures Dot(xi, xi) == 1.0 && Dot(yj, yj) == 1.0 && Dot(xi, yj) == 0.0 && Dot(yj, xi) == 0.0
  {
    DotComm(x, y);
    UnitCoefficients(c, s);
    RotatedNorms(x, y, xi, yj, c, s);
    RotatedCross(x, y, xi, yj, c, s);
  }

  lemma RotatedNorms(x: Vector, y: Vector, xi: Vector, yj: Vector, c: real, s: real)
    requires |x| == |y| == |xi| == |yj| && c * c + s * s == 1.0 && -s * -s + c * c == 1.0
    requires Dot(x, x) == 1.0 && Dot(y, y) == 1.0 && Dot(x, y) == 0.0 && Dot(y, x) == 0.0
    requires forall t :: 0 <= t < |x| ==> xi[t] == c * x[t] + s * y[t]
    requires forall t :: 0 <= t < |x| ==> yj[t] == -s * x[t] + c * y[t]
    ensures Dot(xi, xi) == 1.0 && Dot(yj, yj) == 1.0
  {
    PairDot(x, y, xi, c, s, xi, c, s, 1.0);
    PairDot(x, y, yj, -s, c, yj, -s, c, 1.0);
  }

  lemma RotatedCross(x: Vector, y: Vector, xi: Vector, yj: Vector, c: real, s: real)
    requires |x| == |y| == |xi| == |yj| && c * -s + s * c == 0.0 && -s * c + c * s == 0.0
    requires Dot(x, x) == 1.0 && Dot(y, y) == 1.0 && Dot(x, y) == 0.0 && Dot(y, x) == 0.0
    requires forall t :: 0 <= t < |x| ==> xi[t] == c * x[t] + s * y[t]
    requires forall t :: 0 <= t < |x| ==> yj[t] == -s * x[t] + c * y[t]
    ensures Dot(xi, yj) == 0.0 && Dot(yj, xi) == 0.0
  {
    PairDot(x, y, xi, c, s, yj, -s, c, 0.0);
    PairDot(x, y, yj, -s, c, xi, c, s, 0.0);
  }

  lemma UnitCoefficients(c: real, s: real)
    requires c * c + s * s == 1.0
    ensures -s * -s + c * c == 1.0 && c * -s + s * c == 0.0 && -s * c + c * s == 0.0
  {
  }

  /** For an orthonormal pair x, y, the dot product of two combinations of
      them is the dot product of their coefficients. */
  lemma PairDot(x: Vector, y: Vector, w: Vector, a: real, b: real, z: Vector, a2: real, b2: real, v: real)
    requires |x| == |y| == |w| == |z|
    requires Dot(x, x) == 1.0 && Dot(y, y) == 1.0 && Dot(x, y) == 0.0 && Dot(y, x) == 0.0
    requires forall t :: 0 <= t < |x| ==> w[t] == a * x[t] + b * y[t]
    requires forall t :: 0 <= t < |x| ==> z[t] == a2 * x[t] + b2 * y[t]
    requires a * a2 + b * b2 == v
    ensures Dot(w, z) == v
  {
    CombinationDots(x, y, a2, b2, z);
    DotLinearLeft(x, y, a, b, w, z);
    Comb(a, b, Dot(x, z), Dot(y, z), a2, b2);
  }

  /** The coordinates of a combination of an orthonormal pair. */
  lemma CombinationDots(x: Vector, y: Vector, a: real, b: real, z: Vector)
    requires |x| == |y| == |z|
    requires Dot(x, x) == 1.0 && Dot(y, y) == 1.0 && Dot(x, y) == 0.0 && Dot(y, x) == 0.0
    requires forall t :: 0 <= t < |x| ==> z[t] == a * x[t] + b * y[t]
    ensures Dot(x, z) == a && Dot(y, z) == b
  {
    DotLinear(x, x, y, a, b, z);
    DotLinear(y, x, y, a, b, z);
    Comb(a, b, Dot(x, x), Dot(x, y), 1.0, 0.0);
    Comb(a, b, Dot(y, x), Dot(y, y), 0.0, 1.0);
  }

  lemma Comb(a: real, b: real, u: real, v: real, x: real, y: real)
    requires u == x && v == y
    ensures a * u + b * v == a * x + b * y
  {
  }

  /** A vector orthogonal to x and y is orthogonal to any combination of them. */
  lemma RotatedAgainstOther(x: Vector, y: Vector, w: Vector, z: Vector, a: real, b: real)
    requires |x| == |y| == |w| == |z|
    requires Dot(x, z) == 0.0 && Dot(y, z) == 0.0
    requires forall t :: 0 <= t < |x| ==> w[t] == a * x[t] + b * y[t]
    ensures Dot(w, z) == 0.0 && Dot(z, w) == 0.0
  {
    DotCombination(x, y, a, b, w, z);
    DotComm(w, z);
  }

  /** The columns of the mix: i and j are combined, the others are copied. */
  lemma MixColumns(Q: Matrix, i: nat, j: nat, c: real, s: real)
    requires IsSquare(Q, |Q|) && i < j < |Q|
    ensures var R := ColMix(Q, i, j, c, s);
      && (forall t :: 0 <= t < |Q| ==> Column(R, i)[t] == c * Column(Q, i)[t] + s * Column(Q, j)[t])
      && (forall t :: 0 <= t < |Q| ==> Column(R, j)[t] == -s * Column(Q, i)[t] + c * Column(Q, j)[t])
      && (forall a :: 0 <= a < |Q| && a != i && a != j ==> Column(R, a) == Column(Q, a))
  {
    var R := ColMix(Q, i, j, c, s);
    forall a | 0 <= a < |Q| && a != i && a != j
      ensures Column(R, a) == Column(Q, a)
    {
    }
  }

  lemma MixColumnPair(Q: Matrix, i: nat, j: nat, c: real, s: real, a: nat, b: nat)
    requires IsSquare(Q, |Q|) && i < j < |Q| && a < |Q| && b < |Q|
    requires OrthonormalColumns(Q) && c * c + s * s == 1.0
    ensures var R := ColMix(Q, i, j, c, s);
      Dot(Column(R, a), Column(R, b)) == (if a == b then 1.0 else 0.0)
  {
    MixColumns(Q, i, j, c, s);
    if (a == i || a == j) && (b == i || b == j) {
      MixPairInside(Q, i, j, c, s);
    } else if a == i || a == j {
      MixPairAcross(Q, i, j, c, s, a, b);
    } else if b == i || b == j {
      MixPairAcross(Q, i, j, c, s, b, a);
      DotComm(Column(ColMix(Q, i, j, c, s), a), Column(ColMix(Q, i, j, c, s), b));
    } else {
      var R := ColMix(Q, i, j, c, s);
      assert Column(R, a) == Column(Q, a) && Column(R, b) == Column(Q, b);
    }
  }

  /** The two mixed columns are orthonormal. */
  lemma MixPairInside(Q: Matrix, i: nat, j: nat, c: real, s: real)
    requires IsSquare(Q, |Q|) && i < j < |Q| && OrthonormalColumns(Q) && c * c + s * s == 1.0
    ensures var R := ColMix(Q, i, j, c, s);
      && Dot(Column(R, i), Column(R, i)) == 1.0 && Dot(Column(R, j), Column(R, j)) == 1.0
      && Dot(Column(R, i), Column(R, j)) == 0.0 && Dot(Column(R, j), Column(R, i)) == 0.0
  {
    var R := ColMix(Q, i, j, c, s);
    var x, y := Column(Q, i), Column(Q, j);
    MixColumns(Q, i, j, c, s);
    assert Dot(x, x) == 1.0 && Dot(y, y) == 1.0 && Dot(x, y) == 0.0;
    RotatedPair(x, y, Column(R, i), Column(R, j), c, s);
  }

  /** A mixed column a ∈ {i, j} is orthogonal to every unmixed column b. */
  lemma MixPairAcross(Q: Matrix, i: nat, j: nat, c: real, s: real, a: nat, b: nat)
    requires IsSquare(Q, |Q|) && i < j < |Q| && a < |Q| && b < |Q| && OrthonormalColumns(Q)
    requires (a == i || a == j) && b != i && b != j
    ensures var R := ColMix(Q, i, j, c, s);
      Dot(Column(R, a), Column(R, b)) == 0.0
  {
    var R := ColMix(Q, i, j, c, s);
    var x, y, z := Column(Q, i), Column(Q, j), Column(Q, b);
    MixColumns(Q, i, j, c, s);
    assert Column(R, b) == z;
    assert Dot(x, z) == 0.0 && Dot(y, z) == 0.0;
    if a == i {
      RotatedAgainstOther(x, y, Column(R, i), z, c, s);
    } else {
      RotatedAgainstOther(x, y, Column(R, j), z, -s, c);
    }
  }

  /** Two orthonormal columns mixed by a rotation stay orthonormal and stay
      orthogonal to every other column. */
  lemma MixOrthonormal(Q: Matrix, i: nat, j: nat, c: real, s: real)
    requires IsSquare(Q, |Q|) && i < j < |Q| && OrthonormalColumns(Q) && c * c + s * s == 1.0
    ensures OrthonormalColumns(ColMix(Q, i, j, c, s))
  {
    var R := ColMix(Q, i, j, c, s);
    forall a, b | 0 <= a < |Q| && 0 <= b < |Q|
      ensures Dot(Column(R, a), Column(R, b)) == (if a == b then 1.0 else 0.0)
    {
      MixColumnPair(Q, i, j, c, s, a, b);
    }
  }

  /** The accumulated product stays orthogonal under each rotation. */
  lemma AccumulateOrthogonal(lib: MathLib, A: Matrix, Q: Matrix, i: nat, j: nat)
    requires Lawful(lib) && IsSquare(A, |A|) && IsSquare(Q, |A|) && i < j < |A| && Orthogonal(Q)
    ensures Orthogonal(MatMul(Q, PlaneRotation(lib, A, i, j)))
  {
    var theta := Theta(lib, A[i][i], A[j][j], A[i][j]);
    var c, s := lib.cos(theta), lib.sin(theta);
    assert s * s + c * c == 1.0;
    AccumulateFrame(lib, A, Q, i, j);
    OrthogonalByColumns(Q);
    MixOrthonormal(Q, i, j, c, s);
    OrthogonalByColumns(ColMix(Q, i, j, c, s));
  }

  /** The transpose of a rotation is the rotation by the opposite angle. */
  lemma RotationTranspose(t: nat, i: nat, j: nat, c: real, s: real)
    requires i < j < t
    ensures Transpose(Rotation(t, i, j, c, s)) == Rotation(t, i, j, c, -s)
  {
    MatrixExt(Transpose(Rotation(t, i, j, c, s)), Rotation(t, i, j, c, -s), t, t);
  }

  /** P·Pᵀ = I as well: Pᵀ undoes P from either side. */
  lemma RotationInverse(t: nat, i: nat, j: nat, c: real, s: real)
    requires i < j < t && c * c + s * s == 1.0
    ensures MatMul(Rotation(t, i, j, c, s), Transpose(Rotation(t, i, j, c, s))) == Identity(t)
  {
    RotationTranspose(t, i, j, c, s);
    RotationTranspose(t, i, j, c, -s);
    assert -(-s) == s;
    RotationOrthogonal(t, i, j, c, -s);
  }
}
