/** Dense real vectors and matrices, the numpy arrays of the engine, with the
    handful of algebraic facts the structural model needs: dot products of
    sparse vectors, bilinearity, and products with zero vectors. */
module LinAlg {

  type Vector = seq<real>
  type Matrix = seq<seq<real>>

  /** Number of columns, read from the first row as `len(A[0])` does. */
  function Cols(A: Matrix): nat {
    if |A| == 0 then 0 else |A[0]|
  }

  /** Every row has the same length. */
  predicate Rect(A: Matrix) {
    forall i :: 0 <= i < |A| ==> |A[i]| == Cols(A)
  }

  predicate IsMatrix(A: Matrix, rows: nat, cols: nat) {
    |A| == rows && forall i :: 0 <= i < |A| ==> |A[i]| == cols
  }

  predicate IsSquare(A: Matrix, n: nat) {
    IsMatrix(A, n, n)
  }

  predicate Symmetric(A: Matrix)
    requires IsSquare(A, |A|)
  {
    forall i, j :: 0 <= i < |A| && 0 <= j < |A| ==> A[i][j] == A[j][i]
  }

  predicate IsDiagonal(A: Matrix)
    requires IsSquare(A, |A|)
  {
    forall i, j :: 0 <= i < |A| && 0 <= j < |A| && i != j ==> A[i][j] == 0.0
  }

  predicate IsZeroVector(v: Vector) {
    forall i :: 0 <= i < |v| ==> v[i] == 0.0
  }

  predicate IsZeroMatrix(A: Matrix) {
    forall i :: 0 <= i < |A| ==> IsZeroVector(A[i])
  }

  function ZeroMatrix(rows: nat, cols: nat): (Z: Matrix)
    ensures IsMatrix(Z, rows, cols) && IsZeroMatrix(Z)
  {
    seq(rows, _ => Zeros(cols))
  }

  /** The in-place assignment `A[i][j] = v`. */
  function SetEntry(A: Matrix, i: nat, j: nat, v: real): (B: Matrix)
    requires i < |A| && j < |A[i]|
    ensures |B| == |A| && forall r :: 0 <= r < |A| ==> |B[r]| == |A[r]|
    ensures forall r, c :: 0 <= r < |A| && 0 <= c < |A[r]| ==>
      B[r][c] == (if r == i && c == j then v else A[r][c])
  {
    A[i := A[i][j := v]]
  }

  function Zeros(n: nat): (v: Vector)
    ensures |v| == n && IsZeroVector(v)
  {
    seq(n, _ => 0.0)
  }

  function Ones(n: nat): (v: Vector)
    ensures |v| == n && forall i :: 0 <= i < n ==> v[i] == 1.0
  {
    seq(n, _ => 1.0)
  }

  /** `np.eye(n)`. */
  function Identity(n: nat): (I: Matrix)
    ensures IsSquare(I, n)
    ensures forall i, j :: 0 <= i < n && 0 <= j < n ==> I[i][j] == (if i == j then 1.0 else 0.0)
  {
    seq(n, i => seq(n, j => if i == j then 1.0 else 0.0))
  }

  /** `np.diag(d)`: a square matrix carrying d on its diagonal. */
  function Diag(d: Vector): (D: Matrix)
    ensures IsSquare(D, |d|)
    ensures forall i, j :: 0 <= i < |d| && 0 <= j < |d| ==> D[i][j] == (if i == j then d[i] else 0.0)
  {
    seq(|d|, i requires 0 <= i < |d| => seq(|d|, j requires 0 <= j < |d| => if i == j then d[i] else 0.0))
  }

  function Diagonal(A: Matrix): (d: Vector)
    requires IsSquare(A, |A|)
    ensures |d| == |A| && forall i :: 0 <= i < |A| ==> d[i] == A[i][i]
  {
    seq(|A|, i requires 0 <= i < |A| => A[i][i])
  }

  /** Sum of u[t] * v[t] over the first k positions. */
  function DotTo(u: Vector, v: Vector, k: nat): real
    requires k <= |u| && k <= |v|
  {
    if k == 0 then 0.0 else DotTo(u, v, k - 1) + u[k - 1] * v[k - 1]
  }

  function Dot(u: Vector, v: Vector): real
    requires |u| == |v|
  {
    DotTo(u, v, |u|)
  }

  /** Column j of A, the slice `A[:, j]`. */
  function Column(A: Matrix, j: nat): (c: Vector)
    requires forall i :: 0 <= i < |A| ==> j < |A[i]|
    ensures |c| == |A| && forall i :: 0 <= i < |A| ==> c[i] == A[i][j]
  {
    seq(|A|, i requires 0 <= i < |A| => A[i][j])
  }

  function Transpose(A: Matrix): (T: Matrix)
    requires Rect(A)
    ensures IsMatrix(T, Cols(A), |A|)
    ensures forall i, j :: 0 <= i < Cols(A) && 0 <= j < |A| ==> T[i][j] == A[j][i]
  {
    seq(Cols(A), j requires 0 <= j < Cols(A) => Column(A, j))
  }

  /** The matrix product `A @ B`. */
  function MatMul(A: Matrix, B: Matrix): (C: Matrix)
    requires Rect(A) && Rect(B) && (|A| > 0 ==> Cols(A) == |B|)
    ensures IsMatrix(C, |A|, Cols(B))
    ensures forall i, j :: 0 <= i < |A| && 0 <= j < Cols(B) ==> C[i][j] == Dot(A[i], Column(B, j))
  {
    seq(|A|, i requires 0 <= i < |A| =>
      seq(Cols(B), j requires 0 <= j < Cols(B) => Dot(A[i], Column(B, j))))
  }

  /** The matrix-vector product `A @ x`. */
  function MatVec(A: Matrix, x: Vector): (y: Vector)
    requires forall i :: 0 <= i < |A| ==> |A[i]| == |x|
    ensures |y| == |A| && forall i :: 0 <= i < |A| ==> y[i] == Dot(A[i], x)
  {
    seq(|A|, i requires 0 <= i < |A| => Dot(A[i], x))
  }

  function ScaleMatrix(c: real, A: Matrix): (B: Matrix)
    ensures |B| == |A|
    ensures forall i :: 0 <= i < |A| ==> |B[i]| == |A[i]|
    ensures forall i, j :: 0 <= i < |A| && 0 <= j < |A[i]| ==> B[i][j] == c * A[i][j]
  {
    seq(|A|, i requires 0 <= i < |A| => seq(|A[i]|, j requires 0 <= j < |A[i]| => c * A[i][j]))
  }

  function AddMatrix(A: Matrix, B: Matrix): (C: Matrix)
    requires |A| == |B| && forall i :: 0 <= i < |A| ==> |A[i]| == |B[i]|
    ensures |C| == |A|
    ensures forall i :: 0 <= i < |A| ==> |C[i]| == |A[i]|
    ensures forall i, j :: 0 <= i < |A| && 0 <= j < |A[i]| ==> C[i][j] == A[i][j] + B[i][j]
  {
    seq(|A|, i requires 0 <= i < |A| => seq(|A[i]|, j requires 0 <= j < |A[i]| => A[i][j] + B[i][j]))
  }

  function AddVec(u: Vector, v: Vector): (w: Vector)
    requires |u| == |v|
    ensures |w| == |u| && forall i :: 0 <= i < |u| ==> w[i] == u[i] + v[i]
  {
    seq(|u|, i requires 0 <= i < |u| => u[i] + v[i])
  }

  function SubVec(u: Vector, v: Vector): (w: Vector)
    requires |u| == |v|
    ensures |w| == |u| && forall i :: 0 <= i < |u| ==> w[i] == u[i] - v[i]
  {
    seq(|u|, i requires 0 <= i < |u| => u[i] - v[i])
  }

  function ScaleVec(c: real, u: Vector): (w: Vector)
    ensures |w| == |u| && forall i :: 0 <= i < |u| ==> w[i] == c * u[i]
  {
    seq(|u|, i requires 0 <= i < |u| => c * u[i])
  }

  /** The bilinear form `uᵀ @ m @ v`, evaluated left to right as numpy does. */
  function Bilinear(u: Vector, m: Matrix, v: Vector): real
    requires IsSquare(m, |u|) && |v| == |u|
  {
    Dot(MatVec(Transpose(m), u), v)
  }

  /** The quadratic form `φᵀ @ m @ φ`. */
  function QuadForm(phi: Vector, m: Matrix): real
    requires IsSquare(m, |phi|)
  {
    Bilinear(phi, m, phi)
  }

  /** The elementwise product of two vectors. */
  function Hadamard(a: Vector, b: Vector): (w: Vector)
    requires |a| == |b|
    ensures |w| == |a| && forall x :: 0 <= x < |a| ==> w[x] == a[x] * b[x]
  {
    seq(|a|, x requires 0 <= x < |a| => a[x] * b[x])
  }

  /** Two matrices of one shape with the same entries are equal. */
  lemma MatrixExt(A: Matrix, B: Matrix, rows: nat, cols: nat)
    requires IsMatrix(A, rows, cols) && IsMatrix(B, rows, cols)
    requires forall i, j :: 0 <= i < rows && 0 <= j < cols ==> A[i][j] == B[i][j]
    ensures A == B
  {
    forall i | 0 <= i < rows
      ensures A[i] == B[i]
    {
      assert forall j :: 0 <= j < cols ==> A[i][j] == B[i][j];
    }
  }

  lemma IsMatrixRect(A: Matrix, rows: nat, cols: nat)
    requires IsMatrix(A, rows, cols)
    ensures Rect(A) && (rows > 0 ==> Cols(A) == cols)
  {
  }

  // ---------------------------------------------------------------------
  // Facts about dot products

  lemma {:induction false} DotToComm(u: Vector, v: Vector, k: nat)
    requires k <= |u| && k <= |v|
    ensures DotTo(u, v, k) == DotTo(v, u, k)
  {
    if k > 0 {
      DotToComm(u, v, k - 1);
    }
  }

  lemma DotComm(u: Vector, v: Vector)
    requires |u| == |v|
    ensures Dot(u, v) == Dot(v, u)
  {
    DotToComm(u, v, |u|);
  }

  /** A vector that vanishes outside positions a and b contributes only those two products. */
  lemma {:induction false} DotToSparse(u: Vector, v: Vector, a: nat, b: nat, k: nat)
    requires k <= |u| && k <= |v| && a != b
    requires forall x :: 0 <= x < k && x != a && x != b ==> u[x] == 0.0
    ensures DotTo(u, v, k) == (if a < k then u[a] * v[a] else 0.0) + (if b < k then u[b] * v[b] else 0.0)
  {
    if k > 0 {
      DotToSparse(u, v, a, b, k - 1);
    }
  }

  /** The term of position a in a dot product cut off at k. */
  function Pick(u: Vector, v: Vector, a: nat, k: nat): real
    requires k <= |u| && k <= |v|
  {
    if a < k then u[a] * v[a] else 0.0
  }

  /** The three-position version, for tridiagonal rows. */
  lemma {:induction false} DotToSparse3(u: Vector, v: Vector, a: nat, b: nat, c: nat, k: nat)
    requires k <= |u| && k <= |v| && a != b && b != c && a != c
    requires forall x :: 0 <= x < k && x != a && x != b && x != c ==> u[x] == 0.0
    ensures DotTo(u, v, k) == Pick(u, v, a, k) + Pick(u, v, b, k) + Pick(u, v, c, k)
  {
    if k > 0 {
      var j := k - 1;
      DotToSparse3(u, v, a, b, c, j);
      assert DotTo(u, v, k) == DotTo(u, v, j) + u[j] * v[j];
      if j == a {
        assert Pick(u, v, a, k) == Pick(u, v, a, j) + u[j] * v[j];
      } else if j == b {
        assert Pick(u, v, b, k) == Pick(u, v, b, j) + u[j] * v[j];
      } else if j == c {
        assert Pick(u, v, c, k) == Pick(u, v, c, j) + u[j] * v[j];
      } else {
        assert u[j] * v[j] == 0.0;
      }
    }
  }

  lemma DotTriple(u: Vector, v: Vector, a: nat, b: nat, c: nat)
    requires |u| == |v| && a < |u| && b < |u| && c < |u| && a != b && b != c && a != c
    requires forall x :: 0 <= x < |u| && x != a && x != b && x != c ==> u[x] == 0.0
    ensures Dot(u, v) == u[a] * v[a] + u[b] * v[b] + u[c] * v[c]
  {
    DotToSparse3(u, v, a, b, c, |u|);
  }

  lemma DotPair(u: Vector, v: Vector, a: nat, b: nat)
    requires |u| == |v| && a < |u| && b < |u| && a != b
    requires forall x :: 0 <= x < |u| && x != a && x != b ==> u[x] == 0.0
    ensures Dot(u, v) == u[a] * v[a] + u[b] * v[b]
  {
    DotToSparse(u, v, a, b, |u|);
  }

  lemma DotPairRight(u: Vector, v: Vector, a: nat, b: nat)
    requires |u| == |v| && a < |u| && b < |u| && a != b
    requires forall x :: 0 <= x < |v| && x != a && x != b ==> v[x] == 0.0
    ensures Dot(u, v) == u[a] * v[a] + u[b] * v[b]
  {
    DotComm(u, v);
    DotPair(v, u, a, b);
  }

  /** A vector with a single non-zero position a picks out that position. */
  lemma DotSingle(u: Vector, v: Vector, a: nat)
    requires |u| == |v| && a < |u|
    requires forall x :: 0 <= x < |u| && x != a ==> u[x] == 0.0
    ensures Dot(u, v) == u[a] * v[a]
  {
    DotToSparse(u, v, a, |u|, |u|);
  }

  lemma DotSingleRight(u: Vector, v: Vector, a: nat)
    requires |u| == |v| && a < |u|
    requires forall x :: 0 <= x < |v| && x != a ==> v[x] == 0.0
    ensures Dot(u, v) == u[a] * v[a]
  {
    DotComm(u, v);
    DotSingle(v, u, a);
  }

  lemma {:induction false} DotToZero(u: Vector, v: Vector, k: nat)
    requires k <= |u| && k <= |v|
    requires forall x :: 0 <= x < k ==> v[x] == 0.0
    ensures DotTo(u, v, k) == 0.0
  {
    if k > 0 {
      DotToZero(u, v, k - 1);
    }
  }

  lemma MatVecZero(A: Matrix, x: Vector)
    requires forall i :: 0 <= i < |A| ==> |A[i]| == |x|
    requires IsZeroVector(x)
    ensures IsZeroVector(MatVec(A, x))
  {
    forall i | 0 <= i < |A|
      ensures Dot(A[i], x) == 0.0
    {
      DotToZero(A[i], x, |x|);
    }
  }

  /** Dot is linear in its second argument. */
  lemma {:induction false} DotToLinear(u: Vector, x: Vector, y: Vector, a: real, b: real, w: Vector, k: nat)
    requires |x| == |y| == |w| == |u| && k <= |u|
    requires forall t :: 0 <= t < |w| ==> w[t] == a * x[t] + b * y[t]
    ensures DotTo(u, w, k) == a * DotTo(u, x, k) + b * DotTo(u, y, k)
  {
    if k > 0 {
      DotToLinear(u, x, y, a, b, w, k - 1);
      assert u[k-1] * w[k-1] == a * (u[k-1] * x[k-1]) + b * (u[k-1] * y[k-1]);
    }
  }

  lemma DotLinear(u: Vector, x: Vector, y: Vector, a: real, b: real, w: Vector)
    requires |x| == |y| == |w| == |u|
    requires forall t :: 0 <= t < |w| ==> w[t] == a * x[t] + b * y[t]
    ensures Dot(u, w) == a * Dot(u, x) + b * Dot(u, y)
  {
    DotToLinear(u, x, y, a, b, w, |u|);
  }

  /** Dot is linear in its first argument. */
  lemma DotLinearLeft(x: Vector, y: Vector, a: real, b: real, w: Vector, u: Vector)
    requires |x| == |y| == |w| == |u|
    requires forall t :: 0 <= t < |w| ==> w[t] == a * x[t] + b * y[t]
    ensures Dot(w, u) == a * Dot(x, u) + b * Dot(y, u)
  {
    DotComm(w, u);
    DotComm(x, u);
    DotComm(y, u);
    DotLinear(u, x, y, a, b, w);
  }

  lemma DotScale(u: Vector, x: Vector, a: real, w: Vector)
    requires |x| == |w| == |u|
    requires forall t :: 0 <= t < |w| ==> w[t] == a * x[t]
    ensures Dot(u, w) == a * Dot(u, x)
  {
    DotLinear(u, x, x, a, 0.0, w);
  }

  // ---------------------------------------------------------------------
  // The identity matrix

  lemma TransposeIdentity(n: nat)
    ensures Transpose(Identity(n)) == Identity(n)
  {
    MatrixExt(Transpose(Identity(n)), Identity(n), n, n);
  }

  /** I @ B == B. */
  lemma IdentityLeft(B: Matrix)
    requires Rect(B)
    ensures MatMul(Identity(|B|), B) == B
  {
    var n := |B|;
    var C := MatMul(Identity(n), B);
    forall i, j | 0 <= i < n && 0 <= j < Cols(B)
      ensures C[i][j] == B[i][j]
    {
      DotSingle(Identity(n)[i], Column(B, j), i);
    }
    MatrixExt(C, B, n, Cols(B));
  }

  /** A @ I == A. */
  lemma IdentityRight(A: Matrix)
    requires Rect(A)
    ensures MatMul(A, Identity(Cols(A))) == A
  {
    var n := Cols(A);
    var C := MatMul(A, Identity(n));
    forall i, j | 0 <= i < |A| && 0 <= j < n
      ensures C[i][j] == A[i][j]
    {
      DotSingleRight(A[i], Column(Identity(n), j), j);
    }
    MatrixExt(C, A, |A|, n);
  }

  // ---------------------------------------------------------------------
  // Associativity of the matrix product

  /** Column l of B @ C, summed only over the first k columns of B. */
  function PartialColumn(B: Matrix, C: Matrix, l: nat, k: nat): (w: Vector)
    requires IsMatrix(B, |B|, |C|) && Rect(C) && l < Cols(C) && k <= |C|
    ensures |w| == |B| && forall x :: 0 <= x < |B| ==> w[x] == DotTo(B[x], Column(C, l), k)
  {
    seq(|B|, x requires 0 <= x < |B| => DotTo(B[x], Column(C, l), k))
  }

  lemma {:induction false} AssocPrefix(A: Matrix, B: Matrix, C: Matrix, q: nat, r: nat, i: nat, l: nat, k: nat)
    requires 0 < q && 0 < r
    requires IsMatrix(A, |A|, q) && IsMatrix(B, q, r) && Rect(C) && |C| == r
    requires i < |A| && l < Cols(C) && k <= r
    ensures DotTo(MatMul(A, B)[i], Column(C, l), k) == Dot(A[i], PartialColumn(B, C, l, k))
  {
    var AB := MatMul(A, B);
    if k == 0 {
      DotToZero(A[i], PartialColumn(B, C, l, 0), q);
    } else {
      AssocPrefix(A, B, C, q, r, i, l, k - 1);
      var prev, next, bk := PartialColumn(B, C, l, k - 1), PartialColumn(B, C, l, k), Column(B, k - 1);
      var c := C[k - 1][l];
      forall x | 0 <= x < q
        ensures next[x] == 1.0 * prev[x] + c * bk[x]
      {
      }
      DotLinear(A[i], prev, bk, 1.0, c, next);
      assert AB[i][k - 1] == Dot(A[i], bk);
    }
  }

  /** (A @ B) @ C == A @ (B @ C). */
  lemma MatMulAssoc(A: Matrix, B: Matrix, C: Matrix, q: nat, r: nat)
    requires 0 < q && 0 < r
    requires IsMatrix(A, |A|, q) && IsMatrix(B, q, r) && Rect(C) && |C| == r
    ensures MatMul(MatMul(A, B), C) == MatMul(A, MatMul(B, C))
  {
    var L, R := MatMul(MatMul(A, B), C), MatMul(A, MatMul(B, C));
    forall i, l | 0 <= i < |A| && 0 <= l < Cols(C)
      ensures L[i][l] == R[i][l]
    {
      AssocPrefix(A, B, C, q, r, i, l, r);
      assert PartialColumn(B, C, l, r) == Column(MatMul(B, C), l);
    }
    MatrixExt(L, R, |A|, Cols(C));
  }

  // ---------------------------------------------------------------------
  // Bilinear forms

  lemma {:induction false} DotToProductsEqual(u: Vector, v: Vector, a: Vector, b: Vector, k: nat)
    requires k <= |u| && k <= |v| && k <= |a| && k <= |b|
    requires forall x :: 0 <= x < k ==> u[x] * v[x] == a[x] * b[x]
    ensures DotTo(u, v, k) == DotTo(a, b, k)
  {
    if k > 0 {
      DotToProductsEqual(u, v, a, b, k - 1);
    }
  }

  /** Two dot products whose termwise products agree are equal. */
  lemma DotProductsEqual(u: Vector, v: Vector, a: Vector, b: Vector)
    requires |u| == |v| == |a| == |b|
    requires forall x :: 0 <= x < |u| ==> u[x] * v[x] == a[x] * b[x]
    ensures Dot(u, v) == Dot(a, b)
  {
    DotToProductsEqual(u, v, a, b, |u|);
  }

  /** For a diagonal m, `uᵀ @ m` weighs each entry of u by the diagonal. */
  lemma DiagonalRowProduct(u: Vector, m: Matrix)
    requires IsSquare(m, |u|) && IsDiagonal(m)
    ensures MatVec(Transpose(m), u) == Hadamard(Diagonal(m), u)
  {
    var n := |u|;
    var L, R := MatVec(Transpose(m), u), Hadamard(Diagonal(m), u);
    assert |L| == n;
    forall x | 0 <= x < n
      ensures L[x] == R[x]
    {
      var row := Transpose(m)[x];
      assert forall y :: 0 <= y < n ==> row[y] == m[y][x];
      DotSingle(row, u, x);
    }
    assert L == R;
  }

  /** The entries of `Φᵀ @ m @ Φ` are the bilinear forms of the columns of Φ. */
  lemma CongruenceEntries(phi: Matrix, m: Matrix, cols: nat)
    requires 0 < cols && |phi| > 0 && IsMatrix(phi, |phi|, cols) && IsSquare(m, |phi|)
    ensures var M := MatMul(MatMul(Transpose(phi), m), phi);
      IsSquare(M, cols) &&
      forall a, b :: 0 <= a < cols && 0 <= b < cols ==>
        M[a][b] == Bilinear(Column(phi, a), m, Column(phi, b))
  {
    var n := |phi|;
    var L := MatMul(Transpose(phi), m);
    forall a, b | 0 <= a < cols && 0 <= b < cols
      ensures MatMul(L, phi)[a][b] == Bilinear(Column(phi, a), m, Column(phi, b))
    {
      var u := Column(phi, a);
      forall y | 0 <= y < n
        ensures L[a][y] == MatVec(Transpose(m), u)[y]
      {
        assert Transpose(phi)[a] == u;
        DotComm(u, Column(m, y));
        assert Transpose(m)[y] == Column(m, y);
      }
      assert L[a] == MatVec(Transpose(m), u);
    }
  }

  /** A @ (c·v) == c·(A @ v). */
  lemma MatVecScale(A: Matrix, v: Vector, c: real)
    requires forall i :: 0 <= i < |A| ==> |A[i]| == |v|
    ensures MatVec(A, ScaleVec(c, v)) == ScaleVec(c, MatVec(A, v))
  {
    var L, R := MatVec(A, ScaleVec(c, v)), ScaleVec(c, MatVec(A, v));
    forall i | 0 <= i < |A|
      ensures L[i] == R[i]
    {
      DotScale(A[i], v, c, ScaleVec(c, v));
    }
  }

  /** The bilinear form scales with each argument. */
  lemma BilinearScale(u: Vector, m: Matrix, v: Vector, a: real, b: real)
    requires IsSquare(m, |u|) && |v| == |u|
    ensures Bilinear(ScaleVec(a, u), m, ScaleVec(b, v)) == a * b * Bilinear(u, m, v)
  {
    var mt := Transpose(m);
    MatVecScale(mt, u, a);
    var w := MatVec(mt, u);
    DotScale(ScaleVec(a, w), v, b, ScaleVec(b, v));
    DotComm(ScaleVec(a, w), v);
    DotScale(v, w, a, ScaleVec(a, w));
    DotComm(v, w);
  }

  /** For a diagonal m, `m @ v` weighs each entry of v. */
  lemma DiagonalMatVec(m: Matrix, v: Vector)
    requires IsSquare(m, |v|) && IsDiagonal(m)
    ensures forall x :: 0 <= x < |v| ==> MatVec(m, v)[x] == m[x][x] * v[x]
  {
    forall x | 0 <= x < |v|
      ensures MatVec(m, v)[x] == m[x][x] * v[x]
    {
      DotSingle(m[x], v, x);
    }
  }
}
