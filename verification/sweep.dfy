/** The cyclic Jacobi eigensolver (class `Jacobi`): one sweep `un_ciclo`
    visits every pair i < j in row-major order and rotates it; the constructor
    runs a fixed number of sweeps, with no tolerance check, and reads the
    frequencies off the final diagonal. */
module JacobiSweep {
  import opened LinAlg
  import opened Transcendental
  import opened JacobiRotation
  import opened Outcome

  type Pair = (nat, nat)

  /** Row i of a sweep from column j on: (i, j), (i, j + 1), …, (i, t - 1). */
  function RowPairs(t: nat, i: nat, j: nat): (r: seq<Pair>)
    ensures |r| == (if j <= t then t - j else 0)
    ensures forall k :: 0 <= k < |r| ==> r[k] == (i, j + k)
    decreases t - j
  {
    if j >= t then [] else [(i, j)] + RowPairs(t, i, j + 1)
  }

  lemma RowPairsIn(t: nat, i: nat, j: nat)
    requires i < j
    ensures forall k :: 0 <= k < |RowPairs(t, i, j)| ==> RowPairs(t, i, j)[k].0 < RowPairs(t, i, j)[k].1 < t
  {
  }

  lemma RowPairsCons(t: nat, i: nat, j: nat)
    requires j < t
    ensures RowPairs(t, i, j) == [(i, j)] + RowPairs(t, i, j + 1)
  {
  }

  /** Rows i, i + 1, …, t - 2 of a sweep. */
  function PairsFrom(t: nat, i: nat): (r: seq<Pair>)
    ensures forall k :: 0 <= k < |r| ==> i <= r[k].0 < r[k].1 < t
    decreases t - i
  {
    if i + 1 >= t then [] else RowPairs(t, i, i + 1) + PairsFrom(t, i + 1)
  }

  /** The visiting order of `un_ciclo`: `for i in range(t-1): for j in range(i+1, t)`. */
  function SweepOrder(t: nat): (r: seq<Pair>)
    ensures PairsIn(r, t)
  {
    PairsFrom(t, 0)
  }

  predicate LexLess(p: Pair, q: Pair) {
    p.0 < q.0 || (p.0 == q.0 && p.1 < q.1)
  }

  lemma {:induction false} PairsFromMembers(t: nat, i: nat)
    ensures forall p: Pair :: p in PairsFrom(t, i) <==> i <= p.0 < p.1 < t
    decreases t - i
  {
    if i + 1 < t {
      PairsFromMembers(t, i + 1);
      var row, rest := RowPairs(t, i, i + 1), PairsFrom(t, i + 1);
      assert PairsFrom(t, i) == row + rest;
      forall p: Pair | i <= p.0 < p.1 < t && p.0 == i
        ensures p in row
      {
        assert row[p.1 - i - 1] == p;
      }
    } else {
      forall p: Pair
        ensures !(i <= p.0 < p.1 < t)
      {
      }
    }
  }

  lemma {:induction false} PairsFromSorted(t: nat, i: nat)
    ensures forall k1, k2 :: 0 <= k1 < k2 < |PairsFrom(t, i)| ==>
      LexLess(PairsFrom(t, i)[k1], PairsFrom(t, i)[k2])
    decreases t - i
  {
    if i + 1 < t {
      PairsFromSorted(t, i + 1);
      var row, rest := RowPairs(t, i, i + 1), PairsFrom(t, i + 1);
      var all := row + rest;
      assert PairsFrom(t, i) == all;
      forall k1, k2 | 0 <= k1 < k2 < |all|
        ensures LexLess(all[k1], all[k2])
      {
        if k2 < |row| {
          assert all[k1] == row[k1] && all[k2] == row[k2];
        } else if k1 < |row| {
          assert all[k1] == row[k1] && all[k2] == rest[k2 - |row|];
        } else {
          assert all[k1] == rest[k1 - |row|] && all[k2] == rest[k2 - |row|];
        }
      }
    }
  }

  lemma {:induction false} PairsFromLength(t: nat, i: nat)
    requires i <= t
    ensures 2 * |PairsFrom(t, i)| == (t - i) * (t - i - 1)
    decreases t - i
  {
    if i + 1 < t {
      PairsFromLength(t, i + 1);
      var n := t - i;
      assert |PairsFrom(t, i)| == (n - 1) + |PairsFrom(t, i + 1)|;
      assert n * (n - 1) == 2 * (n - 1) + (n - 1) * (n - 2);
    } else {
      assert t - i == 0 || t - i - 1 == 0;
    }
  }

  /** One sweep visits each pair i < j < t exactly once, in row-major order,
      t(t-1)/2 pairs in all. */
  lemma SweepOrderVisitsEachPairOnce(t: nat)
    ensures forall p: Pair :: p in SweepOrder(t) <==> p.0 < p.1 < t
    ensures forall k1, k2 :: 0 <= k1 < k2 < |SweepOrder(t)| ==> LexLess(SweepOrder(t)[k1], SweepOrder(t)[k2])
    ensures forall k1, k2 :: 0 <= k1 < |SweepOrder(t)| && 0 <= k2 < |SweepOrder(t)| && k1 != k2 ==>
      SweepOrder(t)[k1] != SweepOrder(t)[k2]
    ensures 2 * |SweepOrder(t)| == t * (t - 1)
  {
    PairsFromMembers(t, 0);
    PairsFromSorted(t, 0);
    PairsFromLength(t, 0);
    SortedDistinct(SweepOrder(t));
  }

  lemma SortedDistinct(s: seq<Pair>)
    requires forall k1, k2 :: 0 <= k1 < k2 < |s| ==> LexLess(s[k1], s[k2])
    ensures forall k1, k2 :: 0 <= k1 < |s| && 0 <= k2 < |s| && k1 != k2 ==> s[k1] != s[k2]
  {
    forall k1, k2 | 0 <= k1 < |s| && 0 <= k2 < |s| && k1 != k2
      ensures s[k1] != s[k2]
    {
      if k1 < k2 {
        assert LexLess(s[k1], s[k2]);
      } else {
        assert LexLess(s[k2], s[k1]);
      }
    }
  }

  // ---------------------------------------------------------------------
  // Solver state

  /** The fields `Ak`, `produc_Pk` and `s` of the solver. */
  datatype JacobiState = JacobiState(ak: Matrix, phi: Matrix, count: nat)

  predicate Valid(st: JacobiState) {
    IsSquare(st.ak, |st.ak|) && IsSquare(st.phi, |st.ak|)
  }

  predicate PairsIn(pairs: seq<Pair>, t: nat) {
    forall k :: 0 <= k < |pairs| ==> pairs[k].0 < pairs[k].1 < t
  }

  /** The body of the inner loop of `un_ciclo` for the pair (i, j). */
  function Step(lib: MathLib, st: JacobiState, i: nat, j: nat): (r: JacobiState)
    requires Valid(st) && i < j < |st.ak|
    ensures Valid(r) && |r.ak| == |st.ak|
  {
    var P := PlaneRotation(lib, st.ak, i, j);
    JacobiState(Rotate(lib, st.ak, i, j), MatMul(st.phi, P), st.count + 1)
  }

  /** The rotations for `pairs`, applied in order. */
  function Run(lib: MathLib, st: JacobiState, pairs: seq<Pair>): (r: JacobiState)
    requires Valid(st) && PairsIn(pairs, |st.ak|)
    ensures Valid(r) && |r.ak| == |st.ak|
    decreases |pairs|
  {
    if |pairs| == 0 then st
    else Run(lib, Step(lib, st, pairs[0].0, pairs[0].1), pairs[1..])
  }

  lemma RunCons(lib: MathLib, st: JacobiState, i: nat, j: nat, rest: seq<Pair>)
    requires Valid(st) && i < j < |st.ak| && PairsIn(rest, |st.ak|)
    ensures PairsIn([(i, j)] + rest, |st.ak|)
    ensures Run(lib, st, [(i, j)] + rest) == Run(lib, Step(lib, st, i, j), rest)
  {
    var pairs := [(i, j)] + rest;
    assert pairs[0] == (i, j) && pairs[1..] == rest;
  }

  lemma {:induction false} RunCount(lib: MathLib, st: JacobiState, pairs: seq<Pair>)
    requires Valid(st) && PairsIn(pairs, |st.ak|)
    ensures Run(lib, st, pairs).count == st.count + |pairs|
    decreases |pairs|
  {
    if |pairs| > 0 {
      RunCount(lib, Step(lib, st, pairs[0].0, pairs[0].1), pairs[1..]);
    }
  }

  /** A run of rotations keeps Ak symmetric. */
  lemma {:induction false} RunSymmetric(lib: MathLib, st: JacobiState, pairs: seq<Pair>)
    requires Valid(st) && PairsIn(pairs, |st.ak|) && Symmetric(st.ak)
    ensures Symmetric(Run(lib, st, pairs).ak)
    decreases |pairs|
  {
    if |pairs| > 0 {
      RotateSymmetric(lib, st.ak, pairs[0].0, pairs[0].1);
      RunSymmetric(lib, Step(lib, st, pairs[0].0, pairs[0].1), pairs[1..]);
    }
  }

  /** A run of rotations keeps the accumulated product orthogonal. */
  lemma {:induction false} RunOrthogonal(lib: MathLib, st: JacobiState, pairs: seq<Pair>)
    requires Lawful(lib) && Valid(st) && PairsIn(pairs, |st.ak|) && Orthogonal(st.phi)
    ensures Orthogonal(Run(lib, st, pairs).phi)
    decreases |pairs|
  {
    if |pairs| > 0 {
      AccumulateOrthogonal(lib, st.ak, st.phi, pairs[0].0, pairs[0].1);
      RunOrthogonal(lib, Step(lib, st, pairs[0].0, pairs[0].1), pairs[1..]);
    }
  }

  lemma {:induction false} RunAppend(lib: MathLib, st: JacobiState, a: seq<Pair>, b: seq<Pair>)
    requires Valid(st) && PairsIn(a, |st.ak|) && PairsIn(b, |st.ak|)
    ensures PairsIn(a + b, |st.ak|)
    ensures Run(lib, st, a + b) == Run(lib, Run(lib, st, a), b)
    decreases |a|
  {
    if |a| > 0 {
      assert (a + b)[0] == a[0] && (a + b)[1..] == a[1..] + b;
      RunAppend(lib, Step(lib, st, a[0].0, a[0].1), a[1..], b);
    } else {
      assert a + b == b;
    }
  }

  /** A·Φ = Φ·Ak: the accumulated product carries A onto the current iterate. */
  predicate Similar(A: Matrix, st: JacobiState)
    requires Valid(st) && IsSquare(A, |st.ak|)
  {
    MatMul(A, st.phi) == MatMul(st.phi, st.ak)
  }

  /** One rotation keeps A·Φ = Φ·Ak, because P·Pᵀ = I. */
  lemma StepSimilar(lib: MathLib, A: Matrix, st: JacobiState, i: nat, j: nat)
    requires Lawful(lib) && Valid(st) && IsSquare(A, |st.ak|) && i < j < |st.ak|
    requires Similar(A, st)
    ensures Similar(A, Step(lib, st, i, j))
  {
    var t := |st.ak|;
    var theta := Theta(lib, st.ak[i][i], st.ak[j][j], st.ak[i][j]);
    var c, s := lib.cos(theta), lib.sin(theta);
    assert s * s + c * c == 1.0;
    var P := PlaneRotation(lib, st.ak, i, j);
    var Pt := Transpose(P);
    var phi, ak := st.phi, st.ak;
    RotationInverse(t, i, j, c, s);
    // A·(Φ·P) = (Φ·Ak)·P = Φ·(Ak·P)
    MatMulAssoc(A, phi, P, t, t);
    MatMulAssoc(phi, ak, P, t, t);
    // (Φ·P)·((Pᵀ·Ak)·P) = Φ·(((P·Pᵀ)·Ak)·P) = Φ·(Ak·P)
    var PtAk := MatMul(Pt, ak);
    MatMulAssoc(phi, P, MatMul(PtAk, P), t, t);
    MatMulAssoc(P, PtAk, P, t, t);
    MatMulAssoc(P, Pt, ak, t, t);
    IdentityLeft(ak);
  }

  lemma {:induction false} RunSimilar(lib: MathLib, A: Matrix, st: JacobiState, pairs: seq<Pair>)
    requires Lawful(lib) && Valid(st) && IsSquare(A, |st.ak|) && PairsIn(pairs, |st.ak|)
    requires Similar(A, st)
    ensures Similar(A, Run(lib, st, pairs))
    decreases |pairs|
  {
    if |pairs| > 0 {
      StepSimilar(lib, A, st, pairs[0].0, pairs[0].1);
      RunSimilar(lib, A, Step(lib, st, pairs[0].0, pairs[0].1), pairs[1..]);
    }
  }

  /** The rotations (i, j), (i, j + 1), …, (i, t - 1) applied to st, one column
      at a time. */
  function RowRun(lib: MathLib, st: JacobiState, t: nat, i: nat, j: nat): (r: JacobiState)
    requires Valid(st) && t == |st.ak| && i < j
    ensures Valid(r) && |r.ak| == t
    decreases t - j
  {
    if j >= t then st else RowRun(lib, Step(lib, st, i, j), t, i, j + 1)
  }

  /** Column by column, the row is the run of its pairs. */
  lemma {:induction false} RowRunIsRun(lib: MathLib, st: JacobiState, t: nat, i: nat, j: nat)
    requires Valid(st) && t == |st.ak| && i < j
    ensures PairsIn(RowPairs(t, i, j), t)
    ensures RowRun(lib, st, t, i, j) == Run(lib, st, RowPairs(t, i, j))
    decreases t - j
  {
    if j < t {
      RowRunIsRun(lib, Step(lib, st, i, j), t, i, j + 1);
      RowRunLink(lib, st, t, i, j);
    } else {
      RowRunEnd(lib, st, t, i, j);
    }
  }

  /** Past the last column the row is empty and leaves st as it is. */
  lemma RowRunEnd(lib: MathLib, st: JacobiState, t: nat, i: nat, j: nat)
    requires Valid(st) && t == |st.ak| && i < j && t <= j
    ensures PairsIn(RowPairs(t, i, j), t)
    ensures RowRun(lib, st, t, i, j) == Run(lib, st, RowPairs(t, i, j))
  {
    assert RowPairs(t, i, j) == [];
  }

  /** One column of the induction: if the row agrees with the run from column
      j + 1 on, it does from column j on. */
  lemma RowRunLink(lib: MathLib, st: JacobiState, t: nat, i: nat, j: nat)
    requires Valid(st) && t == |st.ak| && i < j < t
    requires PairsIn(RowPairs(t, i, j + 1), t)
    requires RowRun(lib, Step(lib, st, i, j), t, i, j + 1) == Run(lib, Step(lib, st, i, j), RowPairs(t, i, j + 1))
    ensures PairsIn(RowPairs(t, i, j), t)
    ensures RowRun(lib, st, t, i, j) == Run(lib, st, RowPairs(t, i, j))
  {
    RowPairsCons(t, i, j);
    RunCons(lib, st, i, j, RowPairs(t, i, j + 1));
  }

  /** The inner loop of `un_ciclo`: row i of a sweep. */
  method SweepRow(lib: MathLib, st: JacobiState, i: nat) returns (r: JacobiState)
    requires Valid(st) && i < |st.ak|
    ensures r == Run(lib, st, RowPairs(|st.ak|, i, i + 1))
  {
    var t := |st.ak|;
    r := st;
    var j := i + 1;
    while j < t
      invariant i + 1 <= j <= t
      invariant Valid(r) && |r.ak| == t
      invariant RowRun(lib, r, t, i, j) == RowRun(lib, st, t, i, i + 1)
    {
      r := Step(lib, r, i, j);
      j := j + 1;
    }
    RowRunIsRun(lib, st, t, i, i + 1);
  }

  /** `un_ciclo`: one sweep, as the two nested loops of the source. */
  method Sweep(lib: MathLib, st: JacobiState) returns (r: JacobiState)
    requires Valid(st)
    ensures r == Run(lib, st, SweepOrder(|st.ak|))
  {
    var t := |st.ak|;
    ghost var target := Run(lib, st, SweepOrder(t));
    r := st;
    var i := 0;
    while i + 1 < t
      invariant i <= t && (t > 0 ==> i <= t - 1)
      invariant Valid(r) && |r.ak| == t
      invariant Run(lib, r, PairsFrom(t, i)) == target
    {
      RunAppend(lib, r, RowPairs(t, i, i + 1), PairsFrom(t, i + 1));
      r := SweepRow(lib, r, i);
      i := i + 1;
    }
  }

  // ---------------------------------------------------------------------
  // The constructor `Jacobi(A, n)`

  /** n sweeps from st, one after another. */
  function Sweeps(lib: MathLib, st: JacobiState, n: nat): (r: JacobiState)
    requires Valid(st)
    ensures Valid(r) && |r.ak| == |st.ak|
  {
    if n == 0 then st
    else
      var prev := Sweeps(lib, st, n - 1);
      Run(lib, prev, SweepOrder(|st.ak|))
  }

  /** Any number of sweeps keeps the accumulated product orthogonal. */
  lemma {:induction false} SweepsOrthogonal(lib: MathLib, st: JacobiState, n: nat)
    requires Lawful(lib) && Valid(st) && Orthogonal(st.phi)
    ensures Orthogonal(Sweeps(lib, st, n).phi)
  {
    if n > 0 {
      SweepsOrthogonal(lib, st, n - 1);
      RunOrthogonal(lib, Sweeps(lib, st, n - 1), SweepOrder(|st.ak|));
    }
  }

  /** What the constructor leaves behind: `Ak`, `Ω`, `Φ` and the rotation counter `s`. */
  datatype Eigen = Eigen(ak: Matrix, omega: Matrix, phi: Matrix, count: nat)

  /** The frequency matrix: `np.eye(t)` with `Ak[i][i]**0.5` on the diagonal. */
  function Frequencies(lib: MathLib, ak: Matrix): (omega: Matrix)
    requires IsSquare(ak, |ak|)
    ensures IsSquare(omega, |ak|) && IsDiagonal(omega)
    ensures Lawful(lib) ==> forall i :: 0 <= i < |ak| && ak[i][i] >= 0.0 ==>
      omega[i][i] >= 0.0 && omega[i][i] * omega[i][i] == ak[i][i]
  {
    var d := seq(|ak|, i requires 0 <= i < |ak| => lib.sqrt(ak[i][i]));
    Diag(d)
  }

  lemma IdentityOrthogonal(n: nat)
    ensures Orthogonal(Identity(n))
  {
    TransposeIdentity(n);
    IdentityLeft(Identity(n));
  }

  lemma CountStep(k: nat, p: nat)
    ensures (k + 1) * p == k * p + p
  {
  }

  lemma CountTotal(n: nat, p: nat)
    ensures 2 * (n * p) == n * (2 * p)
  {
  }

  /** `Jacobi(A, n)`: n sweeps starting from Ak = A and Φ = I.
      The source reads the size as `len(A[0])`, so an empty A fails there. */
  method Solve(lib: MathLib, A: Matrix, iterations: nat) returns (r: Result<Eigen>)
    requires IsSquare(A, |A|)
    ensures r.Err? <==> |A| == 0
    ensures r.Err? ==> r.error == IndexError
    ensures r.Ok? ==>
      var e := r.value;
      var final := Sweeps(lib, JacobiState(A, Identity(|A|), 0), iterations);
      && e.ak == final.ak && e.phi == final.phi
      && e.omega == Frequencies(lib, e.ak)
      && 2 * e.count == iterations * (|A| * (|A| - 1))
      && (Symmetric(A) ==> Symmetric(e.ak))
      && (Lawful(lib) ==> Orthogonal(e.phi) && MatMul(A, e.phi) == MatMul(e.phi, e.ak))
  {
    if |A| == 0 {
      return Err(IndexError);
    }
    var t := |A|;
    var st := JacobiState(A, Identity(t), 0);
    IdentityOrthogonal(t);
    IdentityLeft(A);
    IdentityRight(A);
    SweepOrderVisitsEachPairOnce(t);
    ghost var perSweep := |SweepOrder(t)|;
    var k := 0;
    while k < iterations
      invariant k <= iterations
      invariant Valid(st) && |st.ak| == t
      invariant st == Sweeps(lib, JacobiState(A, Identity(t), 0), k)
      invariant st.count == k * perSweep
      invariant Symmetric(A) ==> Symmetric(st.ak)
      invariant Lawful(lib) ==> Orthogonal(st.phi) && Similar(A, st)
    {
      RunCount(lib, st, SweepOrder(t));
      if Symmetric(A) {
        RunSymmetric(lib, st, SweepOrder(t));
      }
      if Lawful(lib) {
        RunOrthogonal(lib, st, SweepOrder(t));
        RunSimilar(lib, A, st, SweepOrder(t));
      }
      st := Sweep(lib, st);
      CountStep(k, perSweep);
      k := k + 1;
    }
    CountTotal(iterations, perSweep);
    r := Ok(Eigen(st.ak, Frequencies(lib, st.ak), st.phi, st.count));
  }

  /** Once Ak is diagonal, A·Φ = Φ·Ak says that column i of Φ is an
      eigenvector of A with eigenvalue Ak[i][i]. */
  lemma ConvergedEigenpairs(A: Matrix, phi: Matrix, ak: Matrix, i: nat)
    requires IsSquare(A, |A|) && IsSquare(phi, |A|) && IsSquare(ak, |A|) && IsDiagonal(ak)
    requires MatMul(A, phi) == MatMul(phi, ak) && i < |A|
    ensures MatVec(A, Column(phi, i)) == ScaleVec(ak[i][i], Column(phi, i))
  {
    var t := |A|;
    var v := Column(phi, i);
    forall x | 0 <= x < t
      ensures MatVec(A, v)[x] == ScaleVec(ak[i][i], v)[x]
    {
      assert MatMul(A, phi)[x][i] == Dot(A[x], v);
      DotSingleRight(phi[x], Column(ak, i), i);
      assert MatMul(phi, ak)[x][i] == phi[x][i] * ak[i][i];
    }
  }
}
