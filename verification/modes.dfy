/** Modal post-processing (`VGL.Modos`): the mass scaling r = diag(m^-1/2),
    the classical matrix A = r·k·r handed to the Jacobi solver, the periods
    T = 2π/ω, the mass normalisation of the mode shapes, the exchange sort by
    decreasing period and the static participation factors. */
module ModalAnalysis {
  import opened LinAlg
  import opened Transcendental
  import opened Outcome
  import opened JacobiRotation
  import opened JacobiSweep

  /** One vibration mode: its period T, circular frequency ω and shape φ. */
  datatype Mode = Mode(period: real, omega: real, shape: Vector)

  /** The fields `T`, `Ω`, `Φ` (one mode per column) and `Γ` that `Modos` leaves behind. */
  datatype Modal = Modal(periods: seq<real>, omega: Matrix, phi: Matrix, gamma: seq<real>)

  // ---------------------------------------------------------------------
  // Mass scaling

  predicate PositiveMasses(m: Matrix)
    requires IsSquare(m, |m|)
  {
    forall i :: 0 <= i < |m| ==> m[i][i] > 0.0
  }

  /** r[x] is a positive inverse square root of the mass m[x][x]:
      r[x]²·m[x][x] = 1. */
  predicate InverseRoots(r: Vector, m: Matrix)
    requires IsSquare(m, |r|)
  {
    forall x :: 0 <= x < |r| ==> r[x] > 0.0 && r[x] * r[x] * m[x][x] == 1.0
  }

  /** `r[i][i] = m[i][i]**(-0.5)`, kept as the vector of its diagonal. A zero
      mass gives inf and a negative one nan, and so does a root of zero. */
  function MassScaling(lib: MathLib, m: Matrix): (r: Result<Vector>)
    requires IsSquare(m, |m|)
    ensures r.Ok? ==> PositiveMasses(m)
    ensures Lawful(lib) ==> (r.Ok? <==> PositiveMasses(m))
    ensures r.Err? ==> r.error == NonFinite
    ensures r.Ok? ==> |r.value| == |m|
    ensures r.Ok? && Lawful(lib) ==> InverseRoots(r.value, m)
  {
    if exists i :: 0 <= i < |m| && (m[i][i] <= 0.0 || lib.sqrt(m[i][i]) == 0.0) then
      MassWithoutRoot(lib, m);
      Err(NonFinite)
    else
      var r := seq(|m|, i requires 0 <= i < |m| => 1.0 / lib.sqrt(m[i][i]));
      RootsOfMasses(lib, m, r);
      Ok(r)
  }

  /** A mass that is not positive, or has a zero root, is not a positive mass. */
  lemma MassWithoutRoot(lib: MathLib, m: Matrix)
    requires IsSquare(m, |m|)
    requires exists i :: 0 <= i < |m| && (m[i][i] <= 0.0 || lib.sqrt(m[i][i]) == 0.0)
    ensures Lawful(lib) ==> !PositiveMasses(m)
  {
    var i :| 0 <= i < |m| && (m[i][i] <= 0.0 || lib.sqrt(m[i][i]) == 0.0);
    if Lawful(lib) && m[i][i] > 0.0 {
      SqrtBounds(lib, m[i][i]);
    }
  }

  /** Positive masses with non-zero roots have their inverse roots in r. */
  lemma RootsOfMasses(lib: MathLib, m: Matrix, r: Vector)
    requires IsSquare(m, |m|) && |r| == |m|
    requires forall i :: 0 <= i < |m| ==> !(m[i][i] <= 0.0 || lib.sqrt(m[i][i]) == 0.0)
    requires forall i :: 0 <= i < |m| ==> r[i] == 1.0 / lib.sqrt(m[i][i])
    ensures PositiveMasses(m)
    ensures Lawful(lib) ==> InverseRoots(r, m)
  {
    if Lawful(lib) {
      forall i | 0 <= i < |m|
        ensures r[i] > 0.0 && r[i] * r[i] * m[i][i] == 1.0
      {
        ReciprocalRoot(lib, m[i][i]);
      }
    }
  }

  /** `A = r @ k @ r`. */
  function Classical(k: Matrix, r: Vector): (A: Matrix)
    requires IsSquare(k, |r|)
    ensures IsSquare(A, |r|)
  {
    MatMul(MatMul(Diag(r), k), Diag(r))
  }

  /** `diag(r) @ k` scales row x of k by r[x]. */
  lemma ScaleRows(k: Matrix, r: Vector)
    requires IsSquare(k, |r|)
    ensures forall x, y :: 0 <= x < |r| && 0 <= y < |r| ==> MatMul(Diag(r), k)[x][y] == r[x] * k[x][y]
  {
    forall x, y | 0 <= x < |r| && 0 <= y < |r|
      ensures MatMul(Diag(r), k)[x][y] == r[x] * k[x][y]
    {
      ScaleRowEntry(k, r, x, y);
    }
  }

  lemma ScaleRowEntry(k: Matrix, r: Vector, x: nat, y: nat)
    requires IsSquare(k, |r|) && x < |r| && y < |r|
    ensures MatMul(Diag(r), k)[x][y] == r[x] * k[x][y]
  {
    var D := Diag(r);
    assert forall z :: 0 <= z < |r| && z != x ==> D[x][z] == 0.0;
    DotSingle(D[x], Column(k, y), x);
  }

  /** `L @ diag(r)` scales column y of L by r[y]. */
  lemma ScaleColumnEntry(L: Matrix, r: Vector, x: nat, y: nat)
    requires IsSquare(L, |r|) && x < |r| && y < |r|
    ensures MatMul(L, Diag(r))[x][y] == L[x][y] * r[y]
  {
    var c := Column(Diag(r), y);
    assert forall z :: 0 <= z < |r| && z != y ==> c[z] == 0.0;
    DotSingleRight(L[x], c, y);
  }

  /** Entry (x, y) of A is r[x]·k[x][y]·r[y]. */
  lemma ClassicalEntries(k: Matrix, r: Vector)
    requires IsSquare(k, |r|)
    ensures forall x, y :: 0 <= x < |r| && 0 <= y < |r| ==> Classical(k, r)[x][y] == r[x] * k[x][y] * r[y]
  {
    forall x, y | 0 <= x < |r| && 0 <= y < |r|
      ensures Classical(k, r)[x][y] == r[x] * k[x][y] * r[y]
    {
      ClassicalEntry(k, r, x, y);
    }
  }

  lemma ClassicalEntry(k: Matrix, r: Vector, x: nat, y: nat)
    requires IsSquare(k, |r|) && x < |r| && y < |r|
    ensures Classical(k, r)[x][y] == r[x] * k[x][y] * r[y]
  {
    ScaleRowEntry(k, r, x, y);
    ScaleColumnEntry(MatMul(Diag(r), k), r, x, y);
  }

  /** A is symmetric when k is. */
  lemma ClassicalSymmetric(k: Matrix, r: Vector)
    requires IsSquare(k, |r|) && Symmetric(k)
    ensures Symmetric(Classical(k, r))
  {
    var A := Classical(k, r);
    ClassicalEntries(k, r);
    forall x, y | 0 <= x < |r| && 0 <= y < |r|
      ensures A[x][y] == A[y][x]
    {
      assert r[x] * k[x][y] * r[y] == r[y] * k[y][x] * r[x];
    }
  }

  // ---------------------------------------------------------------------
  // Normalisation

  /** `φ / (φᵀ @ m @ φ)**0.5`; a form that is zero or negative, or a root of
      zero, gives inf/nan. */
  function Normalised(lib: MathLib, v: Vector, m: Matrix): (r: Result<Vector>)
    requires IsSquare(m, |v|)
    ensures r.Ok? ==> QuadForm(v, m) > 0.0
    ensures Lawful(lib) ==> (r.Ok? <==> QuadForm(v, m) > 0.0)
    ensures r.Err? ==> r.error == NonFinite
    ensures r.Ok? ==> |r.value| == |v|
  {
    var q := QuadForm(v, m);
    if q <= 0.0 || lib.sqrt(q) == 0.0 then
      assert Lawful(lib) && q > 0.0 ==> lib.sqrt(q) > 0.0 by {
        if Lawful(lib) && q > 0.0 {
          SqrtBounds(lib, q);
        }
      }
      Err(NonFinite)
    else Ok(ScaleVec(1.0 / lib.sqrt(q), v))
  }

  /** A normalised shape has unit modal mass. */
  lemma NormalisedUnit(lib: MathLib, v: Vector, m: Matrix)
    requires Lawful(lib) && IsSquare(m, |v|) && QuadForm(v, m) > 0.0
    ensures QuadForm(Normalised(lib, v, m).value, m) == 1.0
  {
    var q := QuadForm(v, m);
    var c := 1.0 / lib.sqrt(q);
    BilinearScale(v, m, v, c, c);
    ReciprocalRoot(lib, q);
  }

  // ---------------------------------------------------------------------
  // Periods and the unsorted modes

  /** `T = 2π·ω**(-1)`. */
  function Period(lib: MathLib, w: real): real
    requires w != 0.0
  {
    2.0 * lib.pi * (1.0 / w)
  }

  lemma PeriodTimesFrequency(lib: MathLib, w: real)
    requires Lawful(lib) && w > 0.0
    ensures Period(lib, w) > 0.0 && Period(lib, w) * w == 2.0 * lib.pi
  {
    ProductPositive(2.0 * lib.pi, 1.0 / w);
    assert (1.0 / w) * w == 1.0;
  }

  predicate PositiveDiagonal(ak: Matrix)
    requires IsSquare(ak, |ak|)
  {
    forall i :: 0 <= i < |ak| ==> ak[i][i] > 0.0
  }

  predicate PositiveForms(raw: Matrix, m: Matrix)
    requires IsSquare(raw, |raw|) && IsSquare(m, |raw|)
  {
    forall i :: 0 <= i < |raw| ==> QuadForm(Column(raw, i), m) > 0.0
  }

  /** Mode i before sorting: ω = `Ak[i][i]**0.5`, its period `2π·ω**(-1)`,
      and column i of the raw shape matrix normalised. A negative Ak[i][i]
      gives a nan ω and a zero one an infinite period. */
  function ModeOf(lib: MathLib, m: Matrix, ak: Matrix, raw: Matrix, i: nat): (r: Result<Mode>)
    requires IsSquare(ak, |ak|) && IsSquare(m, |ak|) && IsSquare(raw, |ak|) && i < |ak|
    ensures r.Err? ==> r.error == NonFinite
    ensures r.Ok? ==> ak[i][i] > 0.0 && QuadForm(Column(raw, i), m) > 0.0
    ensures r.Ok? ==> r.value.omega == lib.sqrt(ak[i][i])
    ensures r.Ok? ==> Normalised(lib, Column(raw, i), m).Ok? && r.value.shape == Normalised(lib, Column(raw, i), m).value
  {
    var w := lib.sqrt(ak[i][i]);
    var shape := Normalised(lib, Column(raw, i), m);
    if ak[i][i] <= 0.0 || w == 0.0 || shape.Err? then Err(NonFinite)
    else Ok(Mode(Period(lib, w), w, shape.value))
  }

  /** Under the usual laws a positive Ak[i][i] and a positive form always give
      a mode, with ω > 0, ω² = Ak[i][i], T·ω = 2π and unit modal mass. */
  lemma ModeOfFacts(lib: MathLib, m: Matrix, ak: Matrix, raw: Matrix, i: nat)
    requires Lawful(lib) && IsSquare(ak, |ak|) && IsSquare(m, |ak|) && IsSquare(raw, |ak|) && i < |ak|
    requires ak[i][i] > 0.0 && QuadForm(Column(raw, i), m) > 0.0
    ensures ModeOf(lib, m, ak, raw, i).Ok?
    ensures ModeFacts(lib, m, ModeOf(lib, m, ak, raw, i).value)
    ensures ModeOf(lib, m, ak, raw, i).value.omega * ModeOf(lib, m, ak, raw, i).value.omega == ak[i][i]
  {
    SqrtBounds(lib, ak[i][i]);
    ModeFrequency(lib, m, ak, raw, i);
    ModeShape(lib, m, ak, raw, i);
  }

  lemma ModeFrequency(lib: MathLib, m: Matrix, ak: Matrix, raw: Matrix, i: nat)
    requires Lawful(lib) && IsSquare(ak, |ak|) && IsSquare(m, |ak|) && IsSquare(raw, |ak|) && i < |ak|
    requires ModeOf(lib, m, ak, raw, i).Ok?
    ensures var mode := ModeOf(lib, m, ak, raw, i).value;
      mode.omega > 0.0 && mode.period * mode.omega == 2.0 * lib.pi && mode.omega * mode.omega == ak[i][i]
  {
    var w := lib.sqrt(ak[i][i]);
    SqrtBounds(lib, ak[i][i]);
    SqrtSquared(lib, ak[i][i]);
    PeriodTimesFrequency(lib, w);
  }

  lemma ModeShape(lib: MathLib, m: Matrix, ak: Matrix, raw: Matrix, i: nat)
    requires Lawful(lib) && IsSquare(ak, |ak|) && IsSquare(m, |ak|) && IsSquare(raw, |ak|) && i < |ak|
    requires ModeOf(lib, m, ak, raw, i).Ok?
    ensures var mode := ModeOf(lib, m, ak, raw, i).value;
      |mode.shape| == |m| && QuadForm(mode.shape, m) == 1.0
  {
    NormalisedUnit(lib, Column(raw, i), m);
  }

  /** All modes before sorting; the first one that is not finite spoils the lot. */
  function InitialModes(lib: MathLib, m: Matrix, ak: Matrix, raw: Matrix): (r: Result<seq<Mode>>)
    requires IsSquare(ak, |ak|) && IsSquare(m, |ak|) && IsSquare(raw, |ak|)
    ensures r.Ok? <==> forall i :: 0 <= i < |ak| ==> ModeOf(lib, m, ak, raw, i).Ok?
    ensures r.Err? ==> r.error == NonFinite
    ensures r.Ok? ==> |r.value| == |ak| && forall i :: 0 <= i < |ak| ==> r.value[i] == ModeOf(lib, m, ak, raw, i).value
  {
    var n := |ak|;
    if exists i :: 0 <= i < n && ModeOf(lib, m, ak, raw, i).Err? then Err(NonFinite)
    else Ok(seq(n, i requires 0 <= i < n => ModeOf(lib, m, ak, raw, i).value))
  }

  /** What every mode satisfies on its own. */
  ghost predicate ModeFacts(lib: MathLib, m: Matrix, mode: Mode)
    requires IsSquare(m, |m|)
  {
    && mode.omega > 0.0
    && mode.period * mode.omega == 2.0 * lib.pi
    && |mode.shape| == |m|
    && QuadForm(mode.shape, m) == 1.0
  }

  // ---------------------------------------------------------------------
  // Sorting by decreasing period

  predicate NonIncreasing(modes: seq<Mode>) {
    forall a, b :: 0 <= a < b < |modes| ==> modes[a].period >= modes[b].period
  }

  /** perm is a bijection of 0 .. n-1. */
  predicate IsPermutation(perm: seq<nat>, n: nat) {
    && |perm| == n
    && (forall k :: 0 <= k < n ==> perm[k] < n)
    && (forall a, b :: 0 <= a < n && 0 <= b < n && a != b ==> perm[a] != perm[b])
  }

  function Swap<T>(s: seq<T>, i: nat, j: nat): (r: seq<T>)
    requires i < |s| && j < |s|
    ensures |r| == |s| && r[i] == s[j] && r[j] == s[i]
    ensures forall k :: 0 <= k < |s| && k != i && k != j ==> r[k] == s[k]
    ensures multiset(r) == multiset(s)
  {
    s[i := s[j]][j := s[i]]
  }

  /** sorted[k] is modes[perm[k]] for a bijection perm. */
  predicate Tracks(modes: seq<Mode>, sorted: seq<Mode>, perm: seq<nat>) {
    && |sorted| == |modes|
    && IsPermutation(perm, |modes|)
    && forall k :: 0 <= k < |modes| ==> sorted[k] == modes[perm[k]]
  }

  lemma SwapTracks(modes: seq<Mode>, sorted: seq<Mode>, perm: seq<nat>, i: nat, j: nat)
    requires Tracks(modes, sorted, perm) && i < |sorted| && j < |sorted|
    ensures Tracks(modes, Swap(sorted, i, j), Swap(perm, i, j))
  {
  }

  /** Everything before position `done` is in its final place: no later mode
      has a longer period. */
  predicate SettledBefore(s: seq<Mode>, done: nat) {
    forall a, b :: 0 <= a < done && a < b < |s| ==> s[a].period >= s[b].period
  }

  /** The inner loop of the sort: position i ends up with the longest period
      of positions i and beyond. */
  method PlaceLongest(ghost modes: seq<Mode>, s: seq<Mode>, ghost perm: seq<nat>, i: nat)
    returns (r: seq<Mode>, ghost rperm: seq<nat>)
    requires i < |s| && Tracks(modes, s, perm) && multiset(s) == multiset(modes) && SettledBefore(s, i)
    ensures Tracks(modes, r, rperm) && multiset(r) == multiset(modes) && SettledBefore(r, i + 1)
  {
    var n := |s|;
    r, rperm := s, perm;
    var j := i + 1;
    while j < n
      invariant i + 1 <= j <= n
      invariant Tracks(modes, r, rperm) && multiset(r) == multiset(modes) && SettledBefore(r, i)
      invariant forall b :: i < b < j ==> r[i].period >= r[b].period
    {
      if r[i].period < r[j].period {
        SwapTracks(modes, r, rperm, i, j);
        r, rperm := Swap(r, i, j), Swap(rperm, i, j);
      }
      j := j + 1;
    }
  }

  /** The exchange sort of `Modos`: for every pair i < j, modes i and j trade
      places (period, frequency and shape together) when T[i] < T[j]. It is
      not an adjacent-swap sort and is not stable. */
  method ExchangeSort(modes: seq<Mode>) returns (sorted: seq<Mode>, ghost perm: seq<nat>)
    ensures |sorted| == |modes| && NonIncreasing(sorted)
    ensures multiset(sorted) == multiset(modes)
    ensures IsPermutation(perm, |modes|) && forall k :: 0 <= k < |modes| ==> sorted[k] == modes[perm[k]]
  {
    var n := |modes|;
    sorted := modes;
    perm := seq(n, k requires 0 <= k < n => k);
    var i := 0;
    while i + 1 < n
      invariant i <= n && (n > 0 ==> i <= n - 1)
      invariant Tracks(modes, sorted, perm) && multiset(sorted) == multiset(modes) && SettledBefore(sorted, i)
    {
      sorted, perm := PlaceLongest(modes, sorted, perm, i);
      i := i + 1;
    }
  }

  // ---------------------------------------------------------------------
  // Participation factors

  /** `Γ = φᵀ @ m @ 𝟙 / (φᵀ @ m @ φ)`; a zero denominator gives inf/nan. */
  function Participation(m: Matrix, phi: Vector): (r: Result<real>)
    requires IsSquare(m, |phi|)
    ensures r.Ok? <==> QuadForm(phi, m) != 0.0
    ensures r.Err? ==> r.error == NonFinite
  {
    var den := QuadForm(phi, m);
    if den == 0.0 then Err(NonFinite) else Ok(Bilinear(phi, m, Ones(|phi|)) / den)
  }

  /** For a shape of unit modal mass, Γ is φᵀ·m·𝟙; for a diagonal m that is
      the sum of the storey masses weighted by the shape. */
  lemma ParticipationOfUnitShape(m: Matrix, phi: Vector)
    requires IsSquare(m, |phi|) && QuadForm(phi, m) == 1.0
    ensures Participation(m, phi) == Ok(Bilinear(phi, m, Ones(|phi|)))
    ensures IsDiagonal(m) ==> Participation(m, phi) == Ok(Dot(Diagonal(m), phi))
  {
    if IsDiagonal(m) {
      DiagonalRowProduct(phi, m);
      DotProductsEqual(Hadamard(Diagonal(m), phi), Ones(|phi|), Diagonal(m), phi);
    }
  }

  // ---------------------------------------------------------------------
  // Mass-scaled shapes

  /** The shapes of the physical problem, `diag(r) @ Ψ`, from the eigenvectors Ψ of A. */
  function ScaledShapes(r: Vector, psi: Matrix): (raw: Matrix)
    requires IsSquare(psi, |r|)
    ensures IsSquare(raw, |r|)
  {
    MatMul(Diag(r), psi)
  }

  lemma ScaledShapeColumns(r: Vector, psi: Matrix, i: nat)
    requires IsSquare(psi, |r|) && i < |r|
    ensures Column(ScaledShapes(r, psi), i) == Hadamard(r, Column(psi, i))
  {
    ScaleRows(psi, r);
    var L, R := Column(ScaledShapes(r, psi), i), Hadamard(r, Column(psi, i));
    forall x | 0 <= x < |r|
      ensures L[x] == R[x]
    {
    }
  }

  /** With r[x]²·m[x][x] = 1 and m diagonal, the m-form of two scaled vectors
      is the plain dot product of the unscaled ones. */
  lemma ScaledForm(m: Matrix, r: Vector, u: Vector, v: Vector)
    requires IsSquare(m, |r|) && IsDiagonal(m) && |u| == |r| && |v| == |r|
    requires InverseRoots(r, m)
    ensures Bilinear(Hadamard(r, u), m, Hadamard(r, v)) == Dot(u, v)
  {
    var ru, rv := Hadamard(r, u), Hadamard(r, v);
    DiagonalRowProduct(ru, m);
    var w := Hadamard(Diagonal(m), ru);
    forall x | 0 <= x < |r|
      ensures w[x] * rv[x] == u[x] * v[x]
    {
      calc {
        w[x] * rv[x];
        (m[x][x] * (r[x] * u[x])) * (r[x] * v[x]);
        (r[x] * r[x] * m[x][x]) * (u[x] * v[x]);
      }
    }
    DotProductsEqual(w, rv, u, v);
  }

  lemma ClassicalRow(k: Matrix, r: Vector, u: Vector, x: nat)
    requires IsSquare(k, |r|) && |u| == |r| && x < |r|
    ensures Dot(Classical(k, r)[x], u) == r[x] * Dot(k[x], Hadamard(r, u))
  {
    var row := Classical(k, r)[x];
    var kr := Hadamard(k[x], r);
    forall y | 0 <= y < |r|
      ensures row[y] == r[x] * kr[y]
    {
      ClassicalEntry(k, r, x, y);
    }
    DotScale(u, kr, r[x], row);
    DotComm(u, row);
    MovedWeights(k[x], r, u);
  }

  /** Σ u[y]·(k[y]·r[y]) = Σ k[y]·(r[y]·u[y]). */
  lemma MovedWeights(kx: Vector, r: Vector, u: Vector)
    requires |kx| == |r| == |u|
    ensures Dot(u, Hadamard(kx, r)) == Dot(kx, Hadamard(r, u))
  {
    var kr, ru := Hadamard(kx, r), Hadamard(r, u);
    forall y | 0 <= y < |r|
      ensures u[y] * kr[y] == kx[y] * ru[y]
    {
    }
    DotProductsEqual(u, kr, kx, ru);
  }

  /** Row x of `(r k r) @ u` is r[x] times row x of `k @ (r ⊙ u)`. */
  lemma ClassicalMatVec(k: Matrix, r: Vector, u: Vector)
    requires IsSquare(k, |r|) && |u| == |r|
    ensures forall x :: 0 <= x < |r| ==>
      MatVec(Classical(k, r), u)[x] == r[x] * MatVec(k, Hadamard(r, u))[x]
  {
    forall x | 0 <= x < |r|
      ensures MatVec(Classical(k, r), u)[x] == r[x] * MatVec(k, Hadamard(r, u))[x]
    {
      ClassicalRow(k, r, u, x);
    }
  }

  /** What the Jacobi solution of A becomes once mapped back: an eigenvector
      ψ of r·k·r with eigenvalue λ gives a solution φ = r ⊙ ψ of k·φ = λ·m·φ. */
  lemma ScaledEigenvector(k: Matrix, m: Matrix, r: Vector, psi: Vector, lambda: real)
    requires IsSquare(k, |r|) && IsSquare(m, |r|) && IsDiagonal(m) && |psi| == |r|
    requires InverseRoots(r, m)
    requires MatVec(Classical(k, r), psi) == ScaleVec(lambda, psi)
    ensures MatVec(k, Hadamard(r, psi)) == ScaleVec(lambda, MatVec(m, Hadamard(r, psi)))
  {
    var phi := Hadamard(r, psi);
    var L, R := MatVec(k, phi), ScaleVec(lambda, MatVec(m, phi));
    forall x | 0 <= x < |r|
      ensures L[x] == R[x]
    {
      assert MatVec(Classical(k, r), psi)[x] == lambda * psi[x];
      ScaledEigenEntry(k, m, r, psi, lambda, x);
    }
  }

  lemma ScaledEigenEntry(k: Matrix, m: Matrix, r: Vector, psi: Vector, lambda: real, x: nat)
    requires IsSquare(k, |r|) && IsSquare(m, |r|) && IsDiagonal(m) && |psi| == |r| && x < |r|
    requires r[x] * r[x] * m[x][x] == 1.0
    requires MatVec(Classical(k, r), psi)[x] == lambda * psi[x]
    ensures MatVec(k, Hadamard(r, psi))[x] == lambda * MatVec(m, Hadamard(r, psi))[x]
  {
    var phi := Hadamard(r, psi);
    ClassicalRow(k, r, psi, x);
    DotSingle(m[x], phi, x);
    UnscaledEntry(r[x], m[x][x], MatVec(k, phi)[x], MatVec(Classical(k, r), psi)[x], lambda, psi[x], phi[x], MatVec(m, phi)[x]);
  }

  /** r·L = λ·ψ and r²·m = 1 give L = λ·m·(r·ψ): r is invertible with
      1/r = r·m. */
  lemma UnscaledEntry(rx: real, mxx: real, lx: real, cx: real, lambda: real, psix: real, phix: real, mv: real)
    requires rx * rx * mxx == 1.0 && cx == rx * lx && cx == lambda * psix
    requires phix == rx * psix && mv == mxx * phix
    ensures lx == lambda * mv
  {
    calc {
      lx;
      (rx * rx * mxx) * lx;
      (rx * mxx) * (rx * lx);
      (rx * mxx) * (lambda * psix);
      lambda * mv;
    }
  }

  /** With m diagonal and r[x]²·m[x][x] = 1, the columns of `diag(r) @ Ψ`
      for an orthogonal Ψ have unit modal mass and are m-orthogonal to each
      other. */
  lemma ScaledShapesOrthonormal(m: Matrix, r: Vector, psi: Matrix)
    requires IsSquare(m, |r|) && IsDiagonal(m) && IsSquare(psi, |r|) && Orthogonal(psi)
    requires InverseRoots(r, m)
    ensures var raw := ScaledShapes(r, psi);
      forall a, b :: 0 <= a < |r| && 0 <= b < |r| ==>
        Bilinear(Column(raw, a), m, Column(raw, b)) == (if a == b then 1.0 else 0.0)
    ensures var raw := ScaledShapes(r, psi);
      forall i :: 0 <= i < |r| ==> QuadForm(Column(raw, i), m) == 1.0
  {
    var raw := ScaledShapes(r, psi);
    OrthogonalByColumns(psi);
    forall a, b | 0 <= a < |r| && 0 <= b < |r|
      ensures Bilinear(Column(raw, a), m, Column(raw, b)) == (if a == b then 1.0 else 0.0)
    {
      ScaledShapeColumns(r, psi, a);
      ScaledShapeColumns(r, psi, b);
      ScaledForm(m, r, Column(psi, a), Column(psi, b));
    }
  }

  /** Under the usual laws normalisation leaves a shape of unit modal mass
      as it is. */
  lemma NormalisedKeepsUnit(lib: MathLib, v: Vector, m: Matrix)
    requires Lawful(lib) && IsSquare(m, |v|) && QuadForm(v, m) == 1.0
    ensures Normalised(lib, v, m) == Ok(v)
  {
    SqrtUnique(lib, 1.0, 1.0);
    assert 1.0 / lib.sqrt(1.0) == 1.0;
    var w := ScaleVec(1.0, v);
    assert forall i :: 0 <= i < |v| ==> w[i] == v[i];
    assert w == v;
  }

  /** Normalisation keeps every column of a matrix whose columns have unit
      modal mass. */
  lemma NormalisedKeepsColumns(lib: MathLib, raw: Matrix, m: Matrix)
    requires Lawful(lib) && IsSquare(raw, |raw|) && IsSquare(m, |raw|)
    requires forall i :: 0 <= i < |raw| ==> QuadForm(Column(raw, i), m) == 1.0
    ensures forall i :: 0 <= i < |raw| ==> Normalised(lib, Column(raw, i), m) == Ok(Column(raw, i))
  {
    forall i | 0 <= i < |raw|
      ensures Normalised(lib, Column(raw, i), m) == Ok(Column(raw, i))
    {
      NormalisedKeepsUnit(lib, Column(raw, i), m);
    }
  }


  // ---------------------------------------------------------------------
  // Assembling the result

  /** Every shape has one entry per storey. */
  predicate WellShaped(modes: seq<Mode>) {
    forall i :: 0 <= i < |modes| ==> |modes[i].shape| == |modes|
  }

  /** The dimensions of a result for n storeys; Ω is diagonal. */
  predicate Shaped(r: Modal, n: nat) {
    && |r.periods| == n && |r.gamma| == n
    && IsSquare(r.omega, n) && IsDiagonal(r.omega) && IsSquare(r.phi, n)
  }

  /** The modes a result describes: period, frequency and column i of Φ. */
  function ModesOf(r: Modal): (modes: seq<Mode>)
    requires Shaped(r, |r.periods|)
    ensures |modes| == |r.periods| && WellShaped(modes)
  {
    var n := |r.periods|;
    seq(n, i requires 0 <= i < n => Mode(r.periods[i], r.omega[i][i], Column(r.phi, i)))
  }

  /** `Φ = G.T`: the sorted shapes become the columns of Φ and the sorted
      frequencies the diagonal of Ω. */
  function Assemble(modes: seq<Mode>, gamma: seq<real>): (r: Modal)
    requires WellShaped(modes) && |gamma| == |modes|
    ensures Shaped(r, |modes|) && ModesOf(r) == modes
  {
    var n := |modes|;
    var r := Modal(seq(n, i requires 0 <= i < n => modes[i].period),
                   Diag(seq(n, i requires 0 <= i < n => modes[i].omega)),
                   seq(n, x requires 0 <= x < n => seq(n, i requires 0 <= i < n => modes[i].shape[x])),
                   gamma);
    assert forall i :: 0 <= i < n ==> Column(r.phi, i) == modes[i].shape;
    r
  }

  /** The factor Γ of every mode, in order. */
  function Gammas(m: Matrix, modes: seq<Mode>): (r: Result<seq<real>>)
    requires IsSquare(m, |modes|) && WellShaped(modes)
    ensures r.Ok? <==> forall i :: 0 <= i < |modes| ==> Participation(m, modes[i].shape).Ok?
    ensures r.Err? ==> r.error == NonFinite
    ensures r.Ok? ==> |r.value| == |modes|
    ensures r.Ok? ==> forall i :: 0 <= i < |modes| ==> Participation(m, modes[i].shape) == Ok(r.value[i])
  {
    var n := |modes|;
    if exists i :: 0 <= i < n && Participation(m, modes[i].shape).Err? then Err(NonFinite)
    else Ok(seq(n, i requires 0 <= i < n => Participation(m, modes[i].shape).value))
  }

  /** The facts every mode of a finished result satisfies under the usual laws. */
  ghost predicate Sound(lib: MathLib, m: Matrix, r: Modal)
    requires IsSquare(m, |m|) && Shaped(r, |m|)
  {
    forall i :: 0 <= i < |m| ==>
      && ModeFacts(lib, m, ModesOf(r)[i])
      && r.gamma[i] == Bilinear(Column(r.phi, i), m, Ones(|m|))
  }

  /** Under the usual laws every mode that survives sorting keeps its facts
      and has a participation factor. */
  lemma SortedModeFacts(lib: MathLib, m: Matrix, ak: Matrix, raw: Matrix, sorted: seq<Mode>, perm: seq<nat>)
    requires Lawful(lib) && IsSquare(ak, |ak|) && IsSquare(m, |ak|) && IsSquare(raw, |ak|)
    requires InitialModes(lib, m, ak, raw).Ok? && Tracks(InitialModes(lib, m, ak, raw).value, sorted, perm)
    ensures forall i :: 0 <= i < |sorted| ==> ModeFacts(lib, m, sorted[i])
    ensures forall i :: 0 <= i < |sorted| ==> Participation(m, sorted[i].shape) == Ok(Bilinear(sorted[i].shape, m, Ones(|m|)))
  {
    forall i | 0 <= i < |sorted|
      ensures ModeFacts(lib, m, sorted[i])
      ensures Participation(m, sorted[i].shape) == Ok(Bilinear(sorted[i].shape, m, Ones(|m|)))
    {
      var j := perm[i];
      assert ModeOf(lib, m, ak, raw, j).Ok?;
      ModeOfFacts(lib, m, ak, raw, j);
      ParticipationOfUnitShape(m, sorted[i].shape);
    }
  }

  /** The assembled result carries the factors of its own columns, and the
      facts of the modes it was built from. */
  lemma AssembledFacts(lib: MathLib, m: Matrix, sorted: seq<Mode>, gamma: seq<real>)
    requires WellShaped(sorted) && IsSquare(m, |sorted|) && Gammas(m, sorted) == Ok(gamma)
    ensures forall i :: 0 <= i < |sorted| ==>
      Participation(m, Column(Assemble(sorted, gamma).phi, i)) == Ok(Assemble(sorted, gamma).gamma[i])
    ensures Lawful(lib) && (forall i :: 0 <= i < |sorted| ==> ModeFacts(lib, m, sorted[i])) ==>
      Sound(lib, m, Assemble(sorted, gamma))
  {
    var res := Assemble(sorted, gamma);
    assert forall i :: 0 <= i < |sorted| ==> Column(res.phi, i) == ModesOf(res)[i].shape == sorted[i].shape;
    if Lawful(lib) && (forall i :: 0 <= i < |sorted| ==> ModeFacts(lib, m, sorted[i])) {
      forall i | 0 <= i < |sorted|
        ensures res.gamma[i] == Bilinear(Column(res.phi, i), m, Ones(|m|))
      {
        ParticipationOfUnitShape(m, sorted[i].shape);
      }
    }
  }

  /** Everything `Modos` does after the Jacobi solve: periods, normalisation,
      sorting and participation factors. `raw` holds one shape per column. */
  method PostProcess(lib: MathLib, m: Matrix, ak: Matrix, raw: Matrix) returns (r: Result<Modal>, ghost perm: seq<nat>)
    requires IsSquare(ak, |ak|) && IsSquare(m, |ak|) && IsSquare(raw, |ak|)
    ensures r.Err? ==> r.error == NonFinite
    ensures InitialModes(lib, m, ak, raw).Err? ==> r.Err?
    ensures Lawful(lib) && InitialModes(lib, m, ak, raw).Ok? ==> r.Ok?
    ensures r.Ok? ==> Describes(lib, m, ak, raw, r.value, perm)
  {
    perm := [];
    var initial := InitialModes(lib, m, ak, raw);
    if initial.Err? {
      return Err(initial.error), perm;
    }
    var sorted;
    sorted, perm := ExchangeSort(initial.value);
    assert Tracks(initial.value, sorted, perm);
    assert WellShaped(sorted) by {
      forall i | 0 <= i < |sorted| ensures |sorted[i].shape| == |sorted| {
        assert sorted[i] == initial.value[perm[i]];
      }
    }
    if Lawful(lib) {
      SortedModeFacts(lib, m, ak, raw, sorted, perm);
    }
    var gamma := Gammas(m, sorted);
    if gamma.Err? {
      return Err(gamma.error), perm;
    }
    AssembledFacts(lib, m, sorted, gamma.value);
    var result := Assemble(sorted, gamma.value);
    r := Ok(result);
  }

  /** What a finished result says about the solver's output `ak` and the raw
      shapes: it lists the same modes, sorted by period, `perm` tells where
      each came from, and Γ belongs to each column. */
  ghost predicate Describes(lib: MathLib, m: Matrix, ak: Matrix, raw: Matrix, r: Modal, perm: seq<nat>)
    requires IsSquare(ak, |ak|) && IsSquare(m, |ak|) && IsSquare(raw, |ak|)
  {
    && Lists(lib, m, ak, raw, r, perm)
    && NonIncreasing(ModesOf(r))
    && multiset(ModesOf(r)) == multiset(InitialModes(lib, m, ak, raw).value)
    && Factors(m, r)
    && (Lawful(lib) ==> Sound(lib, m, r))
  }

  /** The result lists the modes found for `ak` and `raw`, in the order `perm`. */
  ghost predicate Lists(lib: MathLib, m: Matrix, ak: Matrix, raw: Matrix, r: Modal, perm: seq<nat>)
    requires IsSquare(ak, |ak|) && IsSquare(m, |ak|) && IsSquare(raw, |ak|)
  {
    && InitialModes(lib, m, ak, raw).Ok? && Shaped(r, |ak|)
    && Tracks(InitialModes(lib, m, ak, raw).value, ModesOf(r), perm)
  }

  /** Γ of every column is that column's participation factor. */
  predicate Factors(m: Matrix, r: Modal)
    requires IsSquare(m, |m|) && Shaped(r, |m|)
  {
    forall i :: 0 <= i < |m| ==> Participation(m, Column(r.phi, i)) == Ok(r.gamma[i])
  }

  /** Column i of the result is the normalised raw shape the mode came from. */
  lemma ResultColumn(lib: MathLib, m: Matrix, ak: Matrix, raw: Matrix, r: Modal, perm: seq<nat>, i: nat)
    requires IsSquare(ak, |ak|) && IsSquare(m, |ak|) && IsSquare(raw, |ak|)
    requires Lists(lib, m, ak, raw, r, perm) && i < |ak|
    ensures perm[i] < |ak| && ModeOf(lib, m, ak, raw, perm[i]).Ok?
    ensures ModesOf(r)[i] == ModeOf(lib, m, ak, raw, perm[i]).value
    ensures Column(r.phi, i) == Normalised(lib, Column(raw, perm[i]), m).value
    ensures r.omega[i][i] == lib.sqrt(ak[perm[i]][perm[i]])
  {
  }

  /** The frequency listed at i squares back to its entry of Ak. */
  lemma ResultRoot(lib: MathLib, m: Matrix, ak: Matrix, raw: Matrix, r: Modal, perm: seq<nat>, i: nat)
    requires IsSquare(ak, |ak|) && IsSquare(m, |ak|) && IsSquare(raw, |ak|)
    requires Lists(lib, m, ak, raw, r, perm) && i < |ak|
    ensures perm[i] < |ak|
    ensures SquaresBack(lib, ak[perm[i]][perm[i]]) ==> r.omega[i][i] * r.omega[i][i] == ak[perm[i]][perm[i]]
  {
  }

  /** The square root of a squares back to a, when a is positive. */
  predicate SquaresBack(lib: MathLib, a: real) {
    a > 0.0 ==> lib.sqrt(a) * lib.sqrt(a) == a
  }

  /** The square root squares back on every diagonal entry of Ak. */
  ghost predicate DiagonalRoots(lib: MathLib, ak: Matrix)
    requires IsSquare(ak, |ak|)
  {
    forall j :: 0 <= j < |ak| ==> SquaresBack(lib, ak[j][j])
  }

  lemma LawfulDiagonalRoots(lib: MathLib, ak: Matrix)
    requires Lawful(lib) && IsSquare(ak, |ak|)
    ensures DiagonalRoots(lib, ak)
  {
  }

  /** When normalisation keeps every raw shape, column i of the result is
      raw column perm[i] itself and its frequency squares to that column's
      entry of Ak. */
  lemma KeptColumn(lib: MathLib, m: Matrix, ak: Matrix, raw: Matrix, r: Modal, perm: seq<nat>, i: nat)
    requires IsSquare(ak, |ak|) && IsSquare(m, |ak|) && IsSquare(raw, |ak|)
    requires Lists(lib, m, ak, raw, r, perm) && i < |ak| && SquaresBack(lib, ak[perm[i]][perm[i]])
    requires forall j :: 0 <= j < |ak| ==> Normalised(lib, Column(raw, j), m) == Ok(Column(raw, j))
    ensures perm[i] < |ak| && Column(r.phi, i) == Column(raw, perm[i])
    ensures r.omega[i][i] * r.omega[i][i] == ak[perm[i]][perm[i]]
  {
    ResultColumn(lib, m, ak, raw, r, perm, i);
    ResultRoot(lib, m, ak, raw, r, perm, i);
  }

  /** Φᵀ·m·Φ = I: the modes have unit modal mass and are m-orthogonal. */
  ghost predicate MassOrthonormal(m: Matrix, r: Modal)
    requires IsSquare(m, |m|) && Shaped(r, |m|)
  {
    MatMul(MatMul(Transpose(r.phi), m), r.phi) == Identity(|m|)
  }

  /** Every column φ of Φ and its ω solve k·φ = ω²·m·φ. */
  ghost predicate SolvesEigenproblem(k: Matrix, m: Matrix, r: Modal)
    requires IsSquare(k, |k|) && IsSquare(m, |k|) && Shaped(r, |k|)
  {
    forall i :: 0 <= i < |k| ==>
      MatVec(k, Column(r.phi, i)) == ScaleVec(r.omega[i][i] * r.omega[i][i], MatVec(m, Column(r.phi, i)))
  }

  /** Each Γ is the mass-weighted sum of its column, Σ m[x][x]·φ[x]. */
  ghost predicate MassSums(m: Matrix, r: Modal)
    requires IsSquare(m, |m|) && Shaped(r, |m|)
  {
    forall i :: 0 <= i < |m| ==> r.gamma[i] == Dot(Diagonal(m), Column(r.phi, i))
  }

  /** With unit, mutually m-orthogonal raw shapes that normalisation keeps,
      the sorted result satisfies Φᵀ·m·Φ = I. */
  lemma ResultOrthonormal(lib: MathLib, m: Matrix, ak: Matrix, raw: Matrix, r: Modal, perm: seq<nat>)
    requires IsSquare(ak, |ak|) && IsSquare(m, |ak|) && IsSquare(raw, |ak|) && |ak| > 0
    requires Lists(lib, m, ak, raw, r, perm)
    requires forall a, b :: 0 <= a < |ak| && 0 <= b < |ak| ==>
      Bilinear(Column(raw, a), m, Column(raw, b)) == (if a == b then 1.0 else 0.0)
    requires forall i :: 0 <= i < |ak| ==> Normalised(lib, Column(raw, i), m) == Ok(Column(raw, i))
    ensures MassOrthonormal(m, r)
  {
    var n := |ak|;
    CongruenceEntries(r.phi, m, n);
    var M := MatMul(MatMul(Transpose(r.phi), m), r.phi);
    forall a, b | 0 <= a < n && 0 <= b < n
      ensures M[a][b] == Identity(n)[a][b]
    {
      ResultColumn(lib, m, ak, raw, r, perm, a);
      ResultColumn(lib, m, ak, raw, r, perm, b);
      assert perm[a] == perm[b] <==> a == b;
    }
    MatrixExt(M, Identity(n), n, n);
  }

  /** One raw column of the corrected shapes solves k·φ = λ·m·φ when the
      matching column of Ψ is an eigenvector of the classical matrix. */
  lemma RawEigenpair(k: Matrix, m: Matrix, s: Vector, psi: Matrix, ak: Matrix, j: nat)
    requires IsSquare(k, |s|) && IsSquare(m, |s|) && IsDiagonal(m) && j < |s|
    requires InverseRoots(s, m)
    requires IsSquare(psi, |s|) && IsSquare(ak, |s|) && IsDiagonal(ak)
    requires MatMul(Classical(k, s), psi) == MatMul(psi, ak)
    ensures MatVec(k, Column(ScaledShapes(s, psi), j)) == ScaleVec(ak[j][j], MatVec(m, Column(ScaledShapes(s, psi), j)))
  {
    ConvergedEigenpairs(Classical(k, s), psi, ak, j);
    ScaledEigenvector(k, m, s, Column(psi, j), ak[j][j]);
    ScaledShapeColumns(s, psi, j);
  }

  /** Column i of a result built from the corrected shapes solves
      k·φ = ω²·m·φ once Ak is diagonal. */
  lemma ResultEigenpair(lib: MathLib, k: Matrix, m: Matrix, s: Vector, psi: Matrix, ak: Matrix, r: Modal, perm: seq<nat>, i: nat)
    requires IsSquare(k, |s|) && IsSquare(m, |s|) && IsDiagonal(m) && i < |s|
    requires InverseRoots(s, m)
    requires IsSquare(psi, |s|) && IsSquare(ak, |s|) && IsDiagonal(ak)
    requires MatMul(Classical(k, s), psi) == MatMul(psi, ak)
    requires forall j :: 0 <= j < |s| ==> Normalised(lib, Column(ScaledShapes(s, psi), j), m) == Ok(Column(ScaledShapes(s, psi), j))
    requires Lists(lib, m, ak, ScaledShapes(s, psi), r, perm) && SquaresBack(lib, ak[perm[i]][perm[i]])
    ensures MatVec(k, Column(r.phi, i)) == ScaleVec(r.omega[i][i] * r.omega[i][i], MatVec(m, Column(r.phi, i)))
  {
    KeptColumn(lib, m, ak, ScaledShapes(s, psi), r, perm, i);
    RawEigenpair(k, m, s, psi, ak, perm[i]);
  }

  /** Under the usual laws and with positive masses, the corrected shapes give
      a result exactly when every diagonal entry of Ak is positive. */
  lemma CorrectedExists(lib: MathLib, m: Matrix, ak: Matrix, raw: Matrix)
    requires Lawful(lib) && IsSquare(ak, |ak|) && IsSquare(m, |ak|) && IsSquare(raw, |ak|)
    requires forall i :: 0 <= i < |ak| ==> QuadForm(Column(raw, i), m) == 1.0
    ensures InitialModes(lib, m, ak, raw).Ok? <==> PositiveDiagonal(ak)
  {
    if PositiveDiagonal(ak) {
      forall i | 0 <= i < |ak| ensures ModeOf(lib, m, ak, raw, i).Ok? {
        ModeOfFacts(lib, m, ak, raw, i);
      }
    } else {
      var i :| 0 <= i < |ak| && ak[i][i] <= 0.0;
      assert ModeOf(lib, m, ak, raw, i).Err?;
    }
  }

  /** Under the usual laws a diagonal m turns every Γ into the mass-weighted
      sum of its column: each column has unit modal mass. */
  lemma ResultGammas(lib: MathLib, m: Matrix, r: Modal)
    requires IsSquare(m, |m|) && IsDiagonal(m) && Shaped(r, |m|)
    requires Factors(m, r) && Sound(lib, m, r)
    ensures MassSums(m, r)
  {
    forall i | 0 <= i < |m|
      ensures r.gamma[i] == Dot(Diagonal(m), Column(r.phi, i))
    {
      assert ModeFacts(lib, m, ModesOf(r)[i]);
      ParticipationOfUnitShape(m, Column(r.phi, i));
    }
  }

  /** Every column of a result built from the corrected shapes solves
      k·φ = ω²·m·φ once Ak is diagonal. */
  lemma ResultEigenpairs(lib: MathLib, k: Matrix, m: Matrix, s: Vector, psi: Matrix, ak: Matrix, r: Modal, perm: seq<nat>)
    requires IsSquare(k, |s|) && IsSquare(m, |s|) && IsDiagonal(m)
    requires InverseRoots(s, m)
    requires IsSquare(psi, |s|) && IsSquare(ak, |s|) && IsDiagonal(ak)
    requires MatMul(Classical(k, s), psi) == MatMul(psi, ak)
    requires forall j :: 0 <= j < |s| ==> Normalised(lib, Column(ScaledShapes(s, psi), j), m) == Ok(Column(ScaledShapes(s, psi), j))
    requires DiagonalRoots(lib, ak) && Lists(lib, m, ak, ScaledShapes(s, psi), r, perm)
    ensures SolvesEigenproblem(k, m, r)
  {
    forall i | 0 <= i < |s|
      ensures MatVec(k, Column(r.phi, i)) == ScaleVec(r.omega[i][i] * r.omega[i][i], MatVec(m, Column(r.phi, i)))
    {
      ResultEigenpair(lib, k, m, s, psi, ak, r, perm, i);
    }
  }

  /** The state the Jacobi solver of `Modos` reaches on the classical matrix
      `r @ k @ r`. */
  function JacobiOf(lib: MathLib, k: Matrix, m: Matrix, iterations: nat): (st: JacobiState)
    requires IsSquare(k, |k|) && IsSquare(m, |k|) && MassScaling(lib, m).Ok?
    ensures Valid(st) && |st.ak| == |k|
  {
    Sweeps(lib, JacobiState(Classical(k, MassScaling(lib, m).value), Identity(|k|), 0), iterations)
  }

  /** The Jacobi vectors mapped back to physical coordinates: `r @ Ψ`. */
  function CorrectedShapes(lib: MathLib, k: Matrix, m: Matrix, iterations: nat): (raw: Matrix)
    requires IsSquare(k, |k|) && IsSquare(m, |k|) && MassScaling(lib, m).Ok?
    ensures IsSquare(raw, |k|)
  {
    ScaledShapes(MassScaling(lib, m).value, JacobiOf(lib, k, m, iterations).phi)
  }

  /** What the corrected shapes add under the usual laws and a diagonal mass
      matrix, stated for the scaling s and the Jacobi output Ψ and Ak. */
  lemma CorrectedFacts(lib: MathLib, k: Matrix, m: Matrix, s: Vector, psi: Matrix, ak: Matrix, r: Result<Modal>, perm: seq<nat>)
    requires Lawful(lib) && IsSquare(k, |s|) && IsSquare(m, |s|) && IsDiagonal(m) && |s| > 0
    requires InverseRoots(s, m)
    requires IsSquare(psi, |s|) && IsSquare(ak, |s|) && Orthogonal(psi)
    requires MatMul(Classical(k, s), psi) == MatMul(psi, ak)
    requires r.Ok? <==> InitialModes(lib, m, ak, ScaledShapes(s, psi)).Ok?
    requires r.Ok? ==> Describes(lib, m, ak, ScaledShapes(s, psi), r.value, perm)
    ensures r.Ok? <==> PositiveDiagonal(ak)
    ensures r.Ok? ==> MassOrthonormal(m, r.value) && MassSums(m, r.value)
    ensures r.Ok? && IsDiagonal(ak) ==> SolvesEigenproblem(k, m, r.value)
  {
    var raw := ScaledShapes(s, psi);
    ScaledShapesOrthonormal(m, s, psi);
    NormalisedKeepsColumns(lib, raw, m);
    CorrectedExists(lib, m, ak, raw);
    if r.Ok? {
      ResultOrthonormal(lib, m, ak, raw, r.value, perm);
      ResultGammas(lib, m, r.value);
      if IsDiagonal(ak) {
        LawfulDiagonalRoots(lib, ak);
        ResultEigenpairs(lib, k, m, s, psi, ak, r.value, perm);
      }
    }
  }

  /** `Modos` with the shapes mapped back to physical coordinates, Φ = r·Ψ:
      the mass-orthonormal modes of the shear building, longest period first. */
  method Modes(lib: MathLib, k: Matrix, m: Matrix, iterations: nat) returns (r: Result<Modal>, ghost perm: seq<nat>)
    requires IsSquare(k, |k|) && IsSquare(m, |k|)
    ensures |k| == 0 ==> r == Err(IndexError)
    ensures |k| > 0 && MassScaling(lib, m).Err? ==> r == Err(NonFinite)
    ensures r.Err? ==> r.error == IndexError || r.error == NonFinite
    ensures r.Ok? ==> |k| > 0 && MassScaling(lib, m).Ok?
    ensures r.Ok? ==> Describes(lib, m, JacobiOf(lib, k, m, iterations).ak, CorrectedShapes(lib, k, m, iterations), r.value, perm)
    ensures Lawful(lib) && IsDiagonal(m) && PositiveMasses(m) && |k| > 0 ==>
      (r.Ok? <==> PositiveDiagonal(JacobiOf(lib, k, m, iterations).ak))
    ensures r.Ok? && Lawful(lib) && IsDiagonal(m) ==> MassOrthonormal(m, r.value) && MassSums(m, r.value)
    ensures r.Ok? && Lawful(lib) && IsDiagonal(m) && IsDiagonal(JacobiOf(lib, k, m, iterations).ak) ==>
      SolvesEigenproblem(k, m, r.value)
  {
    perm := [];
    if |k| == 0 {
      return Err(IndexError), perm;
    }
    var scaling := MassScaling(lib, m);
    if scaling.Err? {
      return Err(scaling.error), perm;
    }
    var s := scaling.value;
    var A := Classical(k, s);
    var sol := Solve(lib, A, iterations);
    var psi, ak := sol.value.phi, sol.value.ak;
    assert ak == JacobiOf(lib, k, m, iterations).ak;
    var raw := ScaledShapes(s, psi);
    assert raw == CorrectedShapes(lib, k, m, iterations);
    r, perm := PostProcess(lib, m, ak, raw);
    if Lawful(lib) && IsDiagonal(m) {
      CorrectedFacts(lib, k, m, s, psi, ak, r, perm);
    }
  }

  /** `Modos` as written: the Jacobi vectors Ψ of the classical matrix are
      normalised against m directly, without mapping them back through r. */
  method ModesAsWritten(lib: MathLib, k: Matrix, m: Matrix, iterations: nat) returns (r: Result<Modal>, ghost perm: seq<nat>)
    requires IsSquare(k, |k|) && IsSquare(m, |k|)
    ensures |k| == 0 ==> r == Err(IndexError)
    ensures |k| > 0 && MassScaling(lib, m).Err? ==> r == Err(NonFinite)
    ensures r.Err? ==> r.error == IndexError || r.error == NonFinite
    ensures r.Ok? ==> |k| > 0 && MassScaling(lib, m).Ok?
    ensures r.Ok? ==> Describes(lib, m, JacobiOf(lib, k, m, iterations).ak, JacobiOf(lib, k, m, iterations).phi, r.value, perm)
    ensures Lawful(lib) && |k| > 0 && MassScaling(lib, m).Ok? ==>
      (InitialModes(lib, m, JacobiOf(lib, k, m, iterations).ak, JacobiOf(lib, k, m, iterations).phi).Ok? ==> r.Ok?)
  {
    perm := [];
    if |k| == 0 {
      return Err(IndexError), perm;
    }
    var scaling := MassScaling(lib, m);
    if scaling.Err? {
      return Err(scaling.error), perm;
    }
    var A := Classical(k, scaling.value);
    var sol := Solve(lib, A, iterations);
    r, perm := PostProcess(lib, m, sol.value.ak, sol.value.phi);
  }
}
