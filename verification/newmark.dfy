/** The Newmark integrator of `VGL.Newmark`. The equations of motion
    m·ü + c·u̇ + k·u = p(t) are projected on the first J mode shapes,
    M·q̈ + C·q̇ + K·q = Φᵀ·p(t), marched in time with the incremental
    Newmark formulas (average acceleration for β = 1/4, γ = 1/2) and mapped
    back as u = Φ·q. Only the diagonal of the effective stiffness is used to
    solve for each new q, as the engine does. */
module NewmarkIntegration {
  import opened LinAlg
  import opened Outcome

  /** The time step Δt, the modal damping ratio ζ and the parameters β, γ. */
  datatype Params = Params(dt: real, zeta: real, beta: real, gamma: real)

  /** The defaults of the engine: ζ = 0.05, β = 1/4, γ = 1/2. */
  function DefaultParams(dt: real): Params {
    Params(dt, 0.05, 0.25, 0.5)
  }

  predicate Divisible(prm: Params) {
    prm.beta != 0.0 && prm.dt != 0.0
  }

  // ---------------------------------------------------------------------
  // Retained modes

  /** The stop of the numpy slice `0:J` along an axis of length n. */
  function SliceStop(J: int, n: nat): (e: nat)
    ensures e <= n
  {
    if J >= 0 then (if J <= n then J else n)
    else if n + J > 0 then n + J else 0
  }

  /** `A[:, 0:e]`. */
  function FirstColumns(A: Matrix, e: nat): (B: Matrix)
    requires forall x :: 0 <= x < |A| ==> e <= |A[x]|
    ensures IsMatrix(B, |A|, e)
    ensures forall x, y :: 0 <= x < |A| && 0 <= y < e ==> B[x][y] == A[x][y]
  {
    seq(|A|, x requires 0 <= x < |A| => A[x][..e])
  }

  /** `A[0:e, 0:e]`. */
  function LeadingBlock(A: Matrix, e: nat): (B: Matrix)
    requires IsSquare(A, |A|) && e <= |A|
    ensures IsSquare(B, e)
    ensures forall x, y :: 0 <= x < e && 0 <= y < e ==> B[x][y] == A[x][y]
  {
    seq(e, x requires 0 <= x < e => A[x][..e])
  }

  // ---------------------------------------------------------------------
  // The modal system

  datatype ModalSystem = ModalSystem(M: Matrix, C: Matrix, K: Matrix)

  predicate Sized(sys: ModalSystem, n: nat) {
    IsSquare(sys.M, n) && IsSquare(sys.C, n) && IsSquare(sys.K, n)
  }

  /** `M = Φᵀ@m@Φ`, `K = Φᵀ@k@Φ` and `C = 2ζ·M@Ω` for the retained shapes Φ
      and frequencies Ω. */
  function Project(m: Matrix, k: Matrix, phi: Matrix, omega: Matrix, zeta: real): (sys: ModalSystem)
    requires |phi| > 0 && Cols(phi) > 0 && IsMatrix(phi, |phi|, Cols(phi))
    requires IsSquare(m, |phi|) && IsSquare(k, |phi|) && IsSquare(omega, Cols(phi))
    ensures Sized(sys, Cols(phi))
    ensures forall a, b :: 0 <= a < Cols(phi) && 0 <= b < Cols(phi) ==>
      sys.M[a][b] == Bilinear(Column(phi, a), m, Column(phi, b)) &&
      sys.K[a][b] == Bilinear(Column(phi, a), k, Column(phi, b))
  {
    var M := MatMul(MatMul(Transpose(phi), m), phi);
    var K := MatMul(MatMul(Transpose(phi), k), phi);
    CongruenceEntries(phi, m, Cols(phi));
    CongruenceEntries(phi, k, Cols(phi));
    ModalSystem(M, MatMul(ScaleMatrix(2.0 * zeta, M), omega), K)
  }

  /** The effective load `Φᵀ@p[:, t]` at time step t. */
  function ModalLoad(phi: Matrix, p: Matrix, t: nat): (P: Vector)
    requires |phi| > 0 && IsMatrix(phi, |phi|, Cols(phi)) && Rect(p) && |p| == |phi| && t < Cols(p)
    ensures |P| == Cols(phi)
    ensures forall a :: 0 <= a < Cols(phi) ==> P[a] == Dot(Column(phi, a), Column(p, t))
  {
    MatVec(Transpose(phi), Column(p, t))
  }

  // ---------------------------------------------------------------------
  // The constants of the method

  /** `a1 = M/(βΔt²) + γC/(βΔt)`, entry by entry. */
  function A1(prm: Params, mm: real, cc: real): real
    requires Divisible(prm)
  {
    mm / (prm.beta * prm.dt * prm.dt) + prm.gamma * cc / (prm.beta * prm.dt)
  }

  /** `a2 = M/(βΔt) + (γ/β − 1)C`. */
  function A2(prm: Params, mm: real, cc: real): real
    requires Divisible(prm)
  {
    mm / (prm.beta * prm.dt) + (prm.gamma / prm.beta - 1.0) * cc
  }

  /** `a3 = (1/(2β) − 1)M + Δt(γ/(2β) − 1)C`. */
  function A3(prm: Params, mm: real, cc: real): real
    requires Divisible(prm)
  {
    (1.0 / (2.0 * prm.beta) - 1.0) * mm + prm.dt * (prm.gamma / (2.0 * prm.beta) - 1.0) * cc
  }

  datatype Coefficients = Coefficients(a1: Matrix, a2: Matrix, a3: Matrix, kp: Matrix)

  predicate CoefficientsSized(co: Coefficients, n: nat) {
    IsSquare(co.a1, n) && IsSquare(co.a2, n) && IsSquare(co.a3, n) && IsSquare(co.kp, n)
  }

  /** a1, a2, a3 and the effective stiffness `Kp = K + a1`. */
  function Coeffs(sys: ModalSystem, n: nat, prm: Params): (co: Coefficients)
    requires Sized(sys, n) && Divisible(prm)
    ensures CoefficientsSized(co, n)
    ensures forall x, y :: 0 <= x < n && 0 <= y < n ==>
      && co.a1[x][y] == A1(prm, sys.M[x][y], sys.C[x][y])
      && co.a2[x][y] == A2(prm, sys.M[x][y], sys.C[x][y])
      && co.a3[x][y] == A3(prm, sys.M[x][y], sys.C[x][y])
      && co.kp[x][y] == sys.K[x][y] + co.a1[x][y]
  {
    var M, C := sys.M, sys.C;
    var a1 := seq(n, x requires 0 <= x < n => seq(n, y requires 0 <= y < n => A1(prm, M[x][y], C[x][y])));
    var a2 := seq(n, x requires 0 <= x < n => seq(n, y requires 0 <= y < n => A2(prm, M[x][y], C[x][y])));
    var a3 := seq(n, x requires 0 <= x < n => seq(n, y requires 0 <= y < n => A3(prm, M[x][y], C[x][y])));
    var kp := seq(n, x requires 0 <= x < n => seq(n, y requires 0 <= y < n => sys.K[x][y] + a1[x][y]));
    Coefficients(a1, a2, a3, kp)
  }

  /** Every diagonal entry of Kp is nonzero, so each `Pp[j]/Kp[j][j]` is finite. */
  predicate PivotsNonZero(co: Coefficients, n: nat)
    requires CoefficientsSized(co, n)
  {
    forall j :: 0 <= j < n ==> co.kp[j][j] != 0.0
  }

  /** The march past the first step is well defined. */
  predicate Marchable(sys: ModalSystem, n: nat, prm: Params)
    requires Sized(sys, n)
  {
    Divisible(prm) && PivotsNonZero(Coeffs(sys, n, prm), n)
  }

  // ---------------------------------------------------------------------
  // One step

  /** Modal displacements, velocities and accelerations at one instant. */
  datatype State = State(q: Vector, qp: Vector, qpp: Vector)

  predicate StateSized(s: State, n: nat) {
    |s.q| == n && |s.qp| == n && |s.qpp| == n
  }

  /** The start from rest: q = q̇ = 0 and `q̈ = P0 − C@q̇ − K@q`. */
  function AtRest(sys: ModalSystem, n: nat, P0: Vector): (s: State)
    requires Sized(sys, n) && |P0| == n
    ensures StateSized(s, n)
  {
    var z := Zeros(n);
    State(z, z, SubVec(SubVec(P0, MatVec(sys.C, z)), MatVec(sys.K, z)))
  }

  /** `Pp = P + a1@q + a2@q̇ + a3@q̈`. */
  function Effective(co: Coefficients, n: nat, s: State, P: Vector): (pp: Vector)
    requires CoefficientsSized(co, n) && StateSized(s, n) && |P| == n
    ensures |pp| == n
  {
    AddVec(AddVec(AddVec(P, MatVec(co.a1, s.q)), MatVec(co.a2, s.qp)), MatVec(co.a3, s.qpp))
  }

  /** `(γ/(βΔt))(q' − q) + (1 − γ/β)q̇ + Δt(1 − γ/(2β))q̈`. */
  function NextVelocity(prm: Params, q: real, q1: real, qp: real, qpp: real): real
    requires Divisible(prm)
  {
    var b, g, dt := prm.beta, prm.gamma, prm.dt;
    (g / (b * dt)) * (q1 - q) + (1.0 - g / b) * qp + dt * (1.0 - g / (2.0 * b)) * qpp
  }

  /** `(q' − q)/(βΔt²) − q̇/(βΔt) − (1/(2β) − 1)q̈`. */
  function NextAcceleration(prm: Params, q: real, q1: real, qp: real, qpp: real): real
    requires Divisible(prm)
  {
    var b, dt := prm.beta, prm.dt;
    (q1 - q) / (b * dt * dt) - qp / (b * dt) - (1.0 / (2.0 * b) - 1.0) * qpp
  }

  /** One step of the march: q' from the diagonal of Kp, then q̇' and q̈'. */
  function Advance(co: Coefficients, n: nat, prm: Params, s: State, P: Vector): (s1: State)
    requires CoefficientsSized(co, n) && PivotsNonZero(co, n) && Divisible(prm)
    requires StateSized(s, n) && |P| == n
    ensures StateSized(s1, n)
    ensures forall j :: 0 <= j < n ==>
      && s1.q[j] == Effective(co, n, s, P)[j] / co.kp[j][j]
      && s1.qp[j] == NextVelocity(prm, s.q[j], s1.q[j], s.qp[j], s.qpp[j])
      && s1.qpp[j] == NextAcceleration(prm, s.q[j], s1.q[j], s.qp[j], s.qpp[j])
  {
    var pp := Effective(co, n, s, P);
    var q1 := seq(n, j requires 0 <= j < n => pp[j] / co.kp[j][j]);
    var qp1 := seq(n, j requires 0 <= j < n => NextVelocity(prm, s.q[j], q1[j], s.qp[j], s.qpp[j]));
    var qpp1 := seq(n, j requires 0 <= j < n => NextAcceleration(prm, s.q[j], q1[j], s.qp[j], s.qpp[j]));
    State(q1, qp1, qpp1)
  }

  // ---------------------------------------------------------------------
  // The march

  /** The loads, shapes and system a march works on. */
  predicate Setting(sys: ModalSystem, n: nat, phi: Matrix, p: Matrix) {
    && Sized(sys, n) && |phi| > 0 && IsMatrix(phi, |phi|, n) && Cols(phi) == n
    && Rect(p) && |p| == |phi|
  }

  /** The first t states of the march, by recursion on t. */
  function Trajectory(sys: ModalSystem, n: nat, prm: Params, phi: Matrix, p: Matrix, t: nat): (states: seq<State>)
    requires Setting(sys, n, phi, p) && t <= Cols(p)
    requires t >= 2 ==> Marchable(sys, n, prm)
    ensures |states| == t
    ensures forall i :: 0 <= i < t ==> StateSized(states[i], n)
  {
    if t == 0 then []
    else if t == 1 then [AtRest(sys, n, ModalLoad(phi, p, 0))]
    else
      var prev := Trajectory(sys, n, prm, phi, p, t - 1);
      prev + [Advance(Coeffs(sys, n, prm), n, prm, prev[t - 2], ModalLoad(phi, p, t - 1))]
  }

  datatype Response = Response(u: Matrix, up: Matrix, upp: Matrix)

  /** The modal histories `q`, `qp`, `qpp` as n × t arrays. */
  function Displacements(states: seq<State>, n: nat): (Q: Matrix)
    requires forall t :: 0 <= t < |states| ==> StateSized(states[t], n)
    ensures IsMatrix(Q, n, |states|)
  {
    seq(n, j requires 0 <= j < n => seq(|states|, t requires 0 <= t < |states| =>
      assert StateSized(states[t], n); states[t].q[j]))
  }

  function Velocities(states: seq<State>, n: nat): (Q: Matrix)
    requires forall t :: 0 <= t < |states| ==> StateSized(states[t], n)
    ensures IsMatrix(Q, n, |states|)
  {
    seq(n, j requires 0 <= j < n => seq(|states|, t requires 0 <= t < |states| =>
      assert StateSized(states[t], n); states[t].qp[j]))
  }

  function Accelerations(states: seq<State>, n: nat): (Q: Matrix)
    requires forall t :: 0 <= t < |states| ==> StateSized(states[t], n)
    ensures IsMatrix(Q, n, |states|)
  {
    seq(n, j requires 0 <= j < n => seq(|states|, t requires 0 <= t < |states| =>
      assert StateSized(states[t], n); states[t].qpp[j]))
  }

  /** `u = Φ@q`, `up = Φ@qp`, `upp = Φ@qpp`. */
  function Respond(phi: Matrix, states: seq<State>, n: nat): (r: Response)
    requires n > 0 && |phi| > 0 && IsMatrix(phi, |phi|, n)
    requires forall t :: 0 <= t < |states| ==> StateSized(states[t], n)
    ensures IsMatrix(r.u, |phi|, |states|) && IsMatrix(r.up, |phi|, |states|) && IsMatrix(r.upp, |phi|, |states|)
  {
    Response(MatMul(phi, Displacements(states, n)), MatMul(phi, Velocities(states, n)),
             MatMul(phi, Accelerations(states, n)))
  }

  // ---------------------------------------------------------------------
  // The integrator

  /** The inputs `Newmark` accepts without raising or producing inf/nan. */
  predicate Accepts(m: Matrix, k: Matrix, phi: Matrix, omega: Matrix, J: int, p: Matrix, prm: Params)
    requires IsSquare(m, |m|) && IsSquare(k, |m|) && IsSquare(phi, |m|) && IsSquare(omega, |m|) && Rect(p)
  {
    var e := SliceStop(J, |m|);
    && e > 0 && |p| == |m| && prm.beta != 0.0
    && (Cols(p) >= 2 ==>
          Marchable(Project(m, k, FirstColumns(phi, e), LeadingBlock(omega, e), prm.zeta), e, prm))
  }

  /** `VGL.Newmark(J, p, Δt, ζ, β, γ)` on the matrices m, k and the modes Φ, Ω
      of a building with |m| degrees of freedom. */
  method Newmark(m: Matrix, k: Matrix, phi: Matrix, omega: Matrix, J: int, p: Matrix, prm: Params)
    returns (r: Result<Response>)
    requires IsSquare(m, |m|) && IsSquare(k, |m|) && IsSquare(phi, |m|) && IsSquare(omega, |m|) && Rect(p)
    ensures SliceStop(J, |m|) == 0 ==> r == Err(IndexError)
    ensures SliceStop(J, |m|) > 0 && |p| == 0 ==> r == Err(IndexError)
    ensures SliceStop(J, |m|) > 0 && |p| > 0 && |p| != |m| ==> r == Err(ShapeMismatch)
    ensures SliceStop(J, |m|) > 0 && |p| == |m| && prm.beta == 0.0 ==> r == Err(ZeroDivision)
    ensures r.Ok? <==> Accepts(m, k, phi, omega, J, p, prm)
    ensures r.Ok? ==> (IsMatrix(r.value.u, |m|, Cols(p)) && IsMatrix(r.value.up, |m|, Cols(p))
      && IsMatrix(r.value.upp, |m|, Cols(p)))
    ensures r.Ok? && Cols(p) > 0 ==>
      forall x :: 0 <= x < |m| ==> r.value.u[x][0] == 0.0 && r.value.up[x][0] == 0.0
    ensures r.Ok? ==>
      var e := SliceStop(J, |m|);
      var phiJ := FirstColumns(phi, e);
      var sys := Project(m, k, phiJ, LeadingBlock(omega, e), prm.zeta);
      r.value == Respond(phiJ, Trajectory(sys, e, prm, phiJ, p, Cols(p)), e)
  {
    var e := SliceStop(J, |m|);
    if e == 0 {
      return Err(IndexError);
    }
    if |p| == 0 {
      return Err(IndexError);
    }
    if |p| != |m| {
      return Err(ShapeMismatch);
    }
    if prm.beta == 0.0 {
      return Err(ZeroDivision);
    }
    var phiJ := FirstColumns(phi, e);
    var sys := Project(m, k, phiJ, LeadingBlock(omega, e), prm.zeta);
    var steps := Cols(p);
    if steps >= 2 && !Marchable(sys, e, prm) {
      return Err(NonFinite);
    }
    var states := March(sys, e, prm, phiJ, p);
    if steps > 0 {
      StartsAtRest(phiJ, states, e);
    }
    return Ok(Respond(phiJ, states, e));
  }

  /** The loop of `Newmark`: the rest state under the first load, then one
      step per later column of the load. */
  method March(sys: ModalSystem, n: nat, prm: Params, phi: Matrix, p: Matrix) returns (states: seq<State>)
    requires Setting(sys, n, phi, p) && (Cols(p) >= 2 ==> Marchable(sys, n, prm))
    ensures |states| == Cols(p)
    ensures Cols(p) > 0 ==> states[0] == AtRest(sys, n, ModalLoad(phi, p, 0))
    ensures states == Trajectory(sys, n, prm, phi, p, Cols(p))
    ensures Marches(sys, n, prm, phi, p, states)
  {
    var steps := Cols(p);
    states := [];
    if steps > 0 {
      states := [AtRest(sys, n, ModalLoad(phi, p, 0))];
      var i := 0;
      while i < steps - 1
        invariant 0 <= i <= steps - 1
        invariant states == Trajectory(sys, n, prm, phi, p, i + 1)
      {
        states := states + [Advance(Coeffs(sys, n, prm), n, prm, states[i], ModalLoad(phi, p, i + 1))];
        i := i + 1;
      }
    }
    TrajectoryMarches(sys, n, prm, phi, p, steps);
  }

  // ---------------------------------------------------------------------
  // What a step satisfies

  /** The two Newmark relations for one mode:
      q' = q + Δt·q̇ + Δt²((1/2 − β)q̈ + β·q̈') and q̇' = q̇ + Δt((1 − γ)q̈ + γ·q̈'). */
  predicate Related(prm: Params, q: real, qp: real, qpp: real, q1: real, qp1: real, qpp1: real) {
    var b, g, dt := prm.beta, prm.gamma, prm.dt;
    && q1 == q + dt * qp + dt * dt * ((0.5 - b) * qpp + b * qpp1)
    && qp1 == qp + dt * ((1.0 - g) * qpp + g * qpp1)
  }

  /** The Newmark relations between consecutive states, mode by mode. */
  predicate NewmarkRelations(prm: Params, s: State, s1: State, n: nat)
    requires StateSized(s, n) && StateSized(s1, n)
  {
    forall j :: 0 <= j < n ==> Related(prm, s.q[j], s.qp[j], s.qpp[j], s1.q[j], s1.qp[j], s1.qpp[j])
  }

  // ---------------------------------------------------------------------
  // The algebra of one step
  //
  // The update formulas divide by βΔt², βΔt and β. The proofs name the three
  // reciprocals, restate each formula as a polynomial in them (its "form"),
  // and do the algebra on plain reals, so that no single proof has to reason
  // about division and polynomials at once.

  /** The reciprocals 1/(βΔt²), 1/(βΔt) and 1/β. */
  function InvX(prm: Params): real
    requires Divisible(prm)
  {
    NonZeroProduct(prm.beta, prm.dt);
    NonZeroProduct(prm.beta * prm.dt, prm.dt);
    1.0 / (prm.beta * prm.dt * prm.dt)
  }

  function InvY(prm: Params): real
    requires Divisible(prm)
  {
    NonZeroProduct(prm.beta, prm.dt);
    1.0 / (prm.beta * prm.dt)
  }

  function InvB(prm: Params): real
    requires Divisible(prm)
  {
    1.0 / prm.beta
  }

  lemma DivAsMul(a: real, c: real)
    requires c != 0.0
    ensures a / c == a * (1.0 / c)
  {
  }

  lemma NonZeroProduct(x: real, y: real)
    requires x != 0.0 && y != 0.0
    ensures x * y != 0.0
  {
  }

  lemma Reciprocal(x: real)
    requires x != 0.0
    ensures x * (1.0 / x) == 1.0
  {
  }

  lemma ShiftReciprocal(x: real, y: real)
    requires x != 0.0 && y != 0.0
    ensures y * (1.0 / (x * y)) == 1.0 / x
  {
    NonZeroProduct(x, y);
    Reciprocal(x * y);
  }

  predicate Reciprocals(prm: Params, iX: real, iY: real, ib: real) {
    var b, dt := prm.beta, prm.dt;
    && b * dt * dt * iX == 1.0 && b * dt * iY == 1.0 && b * ib == 1.0
    && dt * iX == iY && dt * iY == ib
  }

  lemma ReciprocalFacts(prm: Params)
    requires Divisible(prm)
    ensures Reciprocals(prm, InvX(prm), InvY(prm), InvB(prm))
  {
    var b, dt := prm.beta, prm.dt;
    NonZeroProduct(b, dt);
    NonZeroProduct(b * dt, dt);
    Reciprocal(b * dt * dt);
    Reciprocal(b * dt);
    Reciprocal(b);
    ShiftReciprocal(b * dt, dt);
    ShiftReciprocal(b, dt);
  }

  predicate AccelerationIn(a: real, iX: real, iY: real, ib: real, q: real, q1: real, qp: real, qpp: real) {
    a == (q1 - q) * iX - qp * iY - (0.5 * ib - 1.0) * qpp
  }

  predicate VelocityIn(v: real, g: real, dt: real, iY: real, ib: real, q: real, q1: real, qp: real, qpp: real) {
    v == g * iY * (q1 - q) + (1.0 - g * ib) * qp + dt * (1.0 - 0.5 * g * ib) * qpp
  }

  predicate CoefficientsIn(a1: real, a2: real, a3: real, mm: real, cc: real, g: real, dt: real,
                           iX: real, iY: real, ib: real) {
    && a1 == mm * iX + g * cc * iY
    && a2 == mm * iY + (g * ib - 1.0) * cc
    && a3 == (0.5 * ib - 1.0) * mm + dt * (0.5 * g * ib - 1.0) * cc
  }

  lemma AccelerationForm(prm: Params, q: real, q1: real, qp: real, qpp: real)
    requires Divisible(prm)
    ensures AccelerationIn(NextAcceleration(prm, q, q1, qp, qpp), InvX(prm), InvY(prm), InvB(prm), q, q1, qp, qpp)
  {
    var b, dt := prm.beta, prm.dt;
    NonZeroProduct(b, dt);
    NonZeroProduct(b * dt, dt);
    DivAsMul(q1 - q, b * dt * dt);
    DivAsMul(qp, b * dt);
    assert 1.0 / (2.0 * b) == 0.5 * InvB(prm);
  }

  lemma VelocityForm(prm: Params, q: real, q1: real, qp: real, qpp: real)
    requires Divisible(prm)
    ensures VelocityIn(NextVelocity(prm, q, q1, qp, qpp), prm.gamma, prm.dt, InvY(prm), InvB(prm), q, q1, qp, qpp)
  {
    var b, g, dt := prm.beta, prm.gamma, prm.dt;
    NonZeroProduct(b, dt);
    DivAsMul(g, b * dt);
    DivAsMul(g, b);
    assert g / (2.0 * b) == 0.5 * g * InvB(prm);
  }

  lemma CoefficientForms(prm: Params, mm: real, cc: real)
    requires Divisible(prm)
    ensures CoefficientsIn(A1(prm, mm, cc), A2(prm, mm, cc), A3(prm, mm, cc), mm, cc, prm.gamma, prm.dt,
                           InvX(prm), InvY(prm), InvB(prm))
  {
    FirstCoefficient(prm, mm, cc);
    SecondCoefficient(prm, mm, cc);
    ThirdCoefficient(prm, mm, cc);
  }

  lemma FirstCoefficient(prm: Params, mm: real, cc: real)
    requires Divisible(prm)
    ensures A1(prm, mm, cc) == mm * InvX(prm) + prm.gamma * cc * InvY(prm)
  {
    var b, g, dt := prm.beta, prm.gamma, prm.dt;
    NonZeroProduct(b, dt);
    NonZeroProduct(b * dt, dt);
    DivAsMul(mm, b * dt * dt);
    DivAsMul(g * cc, b * dt);
  }

  lemma SecondCoefficient(prm: Params, mm: real, cc: real)
    requires Divisible(prm)
    ensures A2(prm, mm, cc) == mm * InvY(prm) + (prm.gamma * InvB(prm) - 1.0) * cc
  {
    var b, g, dt := prm.beta, prm.gamma, prm.dt;
    NonZeroProduct(b, dt);
    DivAsMul(mm, b * dt);
    DivAsMul(g, b);
  }

  lemma ThirdCoefficient(prm: Params, mm: real, cc: real)
    requires Divisible(prm)
    ensures A3(prm, mm, cc) == (0.5 * InvB(prm) - 1.0) * mm + prm.dt * (0.5 * prm.gamma * InvB(prm) - 1.0) * cc
  {
    var b, g := prm.beta, prm.gamma;
    assert 1.0 / (2.0 * b) == 0.5 * InvB(prm);
    assert g / (2.0 * b) == 0.5 * g * InvB(prm);
  }

  /** Inertia plus damping of the new state equal `a1(q' − q) − a2·q̇ − a3·q̈`. */
  predicate Forces(mm: real, cc: real, na: real, nv: real, a1: real, a2: real, a3: real,
                   q: real, q1: real, qp: real, qpp: real) {
    mm * na + cc * nv == a1 * (q1 - q) - a2 * qp - a3 * qpp
  }

  lemma ModalForces(mm: real, cc: real, g: real, dt: real, iX: real, iY: real, ib: real,
                    q: real, q1: real, qp: real, qpp: real, na: real, nv: real, a1: real, a2: real, a3: real)
    requires AccelerationIn(na, iX, iY, ib, q, q1, qp, qpp) && VelocityIn(nv, g, dt, iY, ib, q, q1, qp, qpp)
    requires CoefficientsIn(a1, a2, a3, mm, cc, g, dt, iX, iY, ib)
    ensures Forces(mm, cc, na, nv, a1, a2, a3, q, q1, qp, qpp)
  {
    var d := q1 - q;
    var x1, x2, x3 := d * iX, qp * iY, (0.5 * ib - 1.0) * qpp;
    var y1, y2, y3 := g * iY * d, (1.0 - g * ib) * qp, dt * (1.0 - 0.5 * g * ib) * qpp;
    SplitForces(mm, cc, na, nv, x1, x2, x3, y1, y2, y3);
    PartOne(mm, cc, g, iX, iY, d, a1);
    PartTwo(mm, cc, g, iY, ib, qp, a2);
    PartThree(mm, cc, g, dt, ib, qpp, a3);
    Linear3(mm * na + cc * nv, mm * x1 + cc * y1, mm * x2 - cc * y2, mm * x3 - cc * y3, a1 * d, a2 * qp, a3 * qpp);
  }

  lemma Linear3(l: real, a: real, b: real, c: real, x: real, y: real, z: real)
    requires l == a - b - c && a == x && b == y && c == z
    ensures l == x - y - z
  {
  }

  lemma SplitForces(mm: real, cc: real, na: real, nv: real, x1: real, x2: real, x3: real,
                    y1: real, y2: real, y3: real)
    requires na == x1 - x2 - x3 && nv == y1 + y2 + y3
    ensures mm * na + cc * nv == (mm * x1 + cc * y1) - (mm * x2 - cc * y2) - (mm * x3 - cc * y3)
  {
  }

  lemma PartOne(mm: real, cc: real, g: real, iX: real, iY: real, d: real, a1: real)
    requires a1 == mm * iX + g * cc * iY
    ensures mm * (d * iX) + cc * (g * iY * d) == a1 * d
  {
  }

  lemma PartTwo(mm: real, cc: real, g: real, iY: real, ib: real, qp: real, a2: real)
    requires a2 == mm * iY + (g * ib - 1.0) * cc
    ensures mm * (qp * iY) - cc * ((1.0 - g * ib) * qp) == a2 * qp
  {
  }

  lemma PartThree(mm: real, cc: real, g: real, dt: real, ib: real, qpp: real, a3: real)
    requires a3 == (0.5 * ib - 1.0) * mm + dt * (0.5 * g * ib - 1.0) * cc
    ensures mm * ((0.5 * ib - 1.0) * qpp) - cc * (dt * (1.0 - 0.5 * g * ib) * qpp) == a3 * qpp
  {
  }

  lemma StepForces(prm: Params, mm: real, cc: real, q: real, q1: real, qp: real, qpp: real)
    requires Divisible(prm)
    ensures Forces(mm, cc, NextAcceleration(prm, q, q1, qp, qpp), NextVelocity(prm, q, q1, qp, qpp),
                   A1(prm, mm, cc), A2(prm, mm, cc), A3(prm, mm, cc), q, q1, qp, qpp)
  {
    AccelerationForm(prm, q, q1, qp, qpp);
    VelocityForm(prm, q, q1, qp, qpp);
    CoefficientForms(prm, mm, cc);
    ModalForces(mm, cc, prm.gamma, prm.dt, InvX(prm), InvY(prm), InvB(prm), q, q1, qp, qpp,
      NextAcceleration(prm, q, q1, qp, qpp), NextVelocity(prm, q, q1, qp, qpp),
      A1(prm, mm, cc), A2(prm, mm, cc), A3(prm, mm, cc));
  }

  lemma RelationsPoly(prm: Params, iX: real, iY: real, ib: real, q: real, q1: real, qp: real, qpp: real,
                      a: real, v: real)
    requires Reciprocals(prm, iX, iY, ib) && AccelerationIn(a, iX, iY, ib, q, q1, qp, qpp)
    requires VelocityIn(v, prm.gamma, prm.dt, iY, ib, q, q1, qp, qpp)
    ensures Related(prm, q, qp, qpp, q1, v, a)
  {
    var b, g, dt := prm.beta, prm.gamma, prm.dt;
    var d := q1 - q;
    assert b * dt * dt * a == d * (b * dt * dt * iX) - dt * qp * (b * dt * iY) - dt * dt * (0.5 * (b * ib) - b) * qpp;
    assert g * dt * a == g * d * (dt * iX) - g * qp * (dt * iY) - dt * (0.5 * g * ib - g) * qpp;
  }

  /** The incremental update formulas are the Newmark relations solved for
      q̇' and q̈', whatever the new displacement q' is. */
  lemma ScalarRelations(prm: Params, q: real, q1: real, qp: real, qpp: real)
    requires Divisible(prm)
    ensures Related(prm, q, qp, qpp, q1, NextVelocity(prm, q, q1, qp, qpp), NextAcceleration(prm, q, q1, qp, qpp))
  {
    ReciprocalFacts(prm);
    AccelerationForm(prm, q, q1, qp, qpp);
    VelocityForm(prm, q, q1, qp, qpp);
    RelationsPoly(prm, InvX(prm), InvY(prm), InvB(prm), q, q1, qp, qpp,
      NextAcceleration(prm, q, q1, qp, qpp), NextVelocity(prm, q, q1, qp, qpp));
  }

  lemma StepRelations(co: Coefficients, n: nat, prm: Params, s: State, P: Vector)
    requires CoefficientsSized(co, n) && PivotsNonZero(co, n) && Divisible(prm)
    requires StateSized(s, n) && |P| == n
    ensures NewmarkRelations(prm, s, Advance(co, n, prm, s, P), n)
  {
    var s1 := Advance(co, n, prm, s, P);
    forall j | 0 <= j < n
      ensures Related(prm, s.q[j], s.qp[j], s.qpp[j], s1.q[j], s1.qp[j], s1.qpp[j])
    {
      ScalarRelations(prm, s.q[j], s1.q[j], s.qp[j], s.qpp[j]);
    }
  }

  /** The state satisfies the modal equations of motion `M@q̈ + C@q̇ + K@q = P`. */
  predicate Balanced(sys: ModalSystem, n: nat, s: State, P: Vector)
    requires Sized(sys, n) && StateSized(s, n)
  {
    AddVec(AddVec(MatVec(sys.M, s.qpp), MatVec(sys.C, s.qp)), MatVec(sys.K, s.q)) == P
  }

  /** For one mode, the displacement solved from the effective stiffness makes
      the new state satisfy the equation of motion at the new load. */
  lemma ScalarBalance(prm: Params, mm: real, cc: real, kk: real, P: real, q: real, qp: real, qpp: real,
                      a1: real, a2: real, a3: real, pp: real, kp: real, q1: real)
    requires Divisible(prm)
    requires a1 == A1(prm, mm, cc) && a2 == A2(prm, mm, cc) && a3 == A3(prm, mm, cc)
    requires kp == kk + a1 && kp != 0.0
    requires Loaded(pp, P, a1, a2, a3, q, qp, qpp)
    requires q1 == pp / kp
    ensures ModeBalanced(mm, cc, kk, P, q1, NextVelocity(prm, q, q1, qp, qpp), NextAcceleration(prm, q, q1, qp, qpp))
  {
    Solved(kp, pp, q1);
    StepForces(prm, mm, cc, q, q1, qp, qpp);
    Combine(mm, cc, kk, a1, a2, a3, A1(prm, mm, cc), A2(prm, mm, cc), A3(prm, mm, cc),
      NextAcceleration(prm, q, q1, qp, qpp), NextVelocity(prm, q, q1, qp, qpp), P, q, q1, qp, qpp, pp, kp);
  }

  /** The effective load `pp = P + a1·q + a2·q̇ + a3·q̈` of one mode. */
  predicate Loaded(pp: real, P: real, a1: real, a2: real, a3: real, q: real, qp: real, qpp: real) {
    pp == P + a1 * q + a2 * qp + a3 * qpp
  }

  /** One mode's equation of motion `m·q̈ + c·q̇ + k·q = P`. */
  predicate ModeBalanced(mm: real, cc: real, kk: real, P: real, q: real, qp: real, qpp: real) {
    mm * qpp + cc * qp + kk * q == P
  }

  predicate Solves(c: real, y: real, x: real) {
    c * y == x
  }

  lemma Solved(c: real, x: real, y: real)
    requires c != 0.0 && y == x / c
    ensures Solves(c, y, x)
  {
  }


  lemma Combine(mm: real, cc: real, kk: real, a1: real, a2: real, a3: real, b1: real, b2: real, b3: real,
                na: real, nv: real, P: real, q: real, q1: real, qp: real, qpp: real, pp: real, kp: real)
    requires a1 == b1 && a2 == b2 && a3 == b3
    requires Forces(mm, cc, na, nv, b1, b2, b3, q, q1, qp, qpp)
    requires kp == kk + a1 && Solves(kp, q1, pp) && Loaded(pp, P, a1, a2, a3, q, qp, qpp)
    ensures ModeBalanced(mm, cc, kk, P, q1, nv, na)
  {
  }




  /** When M, C and K are diagonal (uncoupled modes), every step of the march
      satisfies the modal equations of motion at its own load. */
  lemma StepBalanced(sys: ModalSystem, n: nat, prm: Params, s: State, P: Vector)
    requires Sized(sys, n) && Marchable(sys, n, prm)
    requires IsDiagonal(sys.M) && IsDiagonal(sys.C) && IsDiagonal(sys.K)
    requires StateSized(s, n) && |P| == n
    ensures Balanced(sys, n, Advance(Coeffs(sys, n, prm), n, prm, s, P), P)
  {
    var s1 := Advance(Coeffs(sys, n, prm), n, prm, s, P);
    var lhs := AddVec(AddVec(MatVec(sys.M, s1.qpp), MatVec(sys.C, s1.qp)), MatVec(sys.K, s1.q));
    forall j | 0 <= j < n
      ensures lhs[j] == P[j]
    {
      StepBalancedAt(sys, n, prm, s, P, j);
    }
  }

  lemma StepBalancedAt(sys: ModalSystem, n: nat, prm: Params, s: State, P: Vector, j: nat)
    requires Sized(sys, n) && Marchable(sys, n, prm)
    requires IsDiagonal(sys.M) && IsDiagonal(sys.C) && IsDiagonal(sys.K)
    requires StateSized(s, n) && |P| == n && j < n
    ensures var s1 := Advance(Coeffs(sys, n, prm), n, prm, s, P);
      MatVec(sys.M, s1.qpp)[j] + MatVec(sys.C, s1.qp)[j] + MatVec(sys.K, s1.q)[j] == P[j]
  {
    StepModeBalanced(sys, n, prm, s, P, j);
    DiagonalBalance(sys.M, sys.C, sys.K, n, Advance(Coeffs(sys, n, prm), n, prm, s, P), P[j], j);
  }

  /** With diagonal matrices, row j of `M@q̈ + C@q̇ + K@q` is mode j's own equation. */
  lemma DiagonalBalance(M: Matrix, C: Matrix, K: Matrix, n: nat, s1: State, P: real, j: nat)
    requires IsSquare(M, n) && IsSquare(C, n) && IsSquare(K, n)
    requires IsDiagonal(M) && IsDiagonal(C) && IsDiagonal(K)
    requires StateSized(s1, n) && j < n
    requires ModeBalanced(M[j][j], C[j][j], K[j][j], P, s1.q[j], s1.qp[j], s1.qpp[j])
    ensures MatVec(M, s1.qpp)[j] + MatVec(C, s1.qp)[j] + MatVec(K, s1.q)[j] == P
  {
    DiagonalMatVec(M, s1.qpp);
    DiagonalMatVec(C, s1.qp);
    DiagonalMatVec(K, s1.q);
    Assemble(MatVec(M, s1.qpp)[j], MatVec(C, s1.qp)[j], MatVec(K, s1.q)[j], M[j][j], C[j][j], K[j][j],
      P, s1.q[j], s1.qp[j], s1.qpp[j]);
  }

  lemma StepModeBalanced(sys: ModalSystem, n: nat, prm: Params, s: State, P: Vector, j: nat)
    requires Sized(sys, n) && Marchable(sys, n, prm)
    requires IsDiagonal(sys.M) && IsDiagonal(sys.C)
    requires StateSized(s, n) && |P| == n && j < n
    ensures var s1 := Advance(Coeffs(sys, n, prm), n, prm, s, P);
      ModeBalanced(sys.M[j][j], sys.C[j][j], sys.K[j][j], P[j], s1.q[j], s1.qp[j], s1.qpp[j])
  {
    var co := Coeffs(sys, n, prm);
    var s1 := Advance(co, n, prm, s, P);
    var M, C, K := sys.M, sys.C, sys.K;
    CoeffsDiagonal(sys, n, prm);
    EffectiveAt(co, n, s, P, j);
    ScalarBalance(prm, M[j][j], C[j][j], K[j][j], P[j], s.q[j], s.qp[j], s.qpp[j],
      co.a1[j][j], co.a2[j][j], co.a3[j][j], Effective(co, n, s, P)[j], co.kp[j][j], s1.q[j]);
  }

  lemma Assemble(fm: real, fc: real, fk: real, mm: real, cc: real, kk: real, P: real, q: real, qp: real, qpp: real)
    requires fm == mm * qpp && fc == cc * qp && fk == kk * q && ModeBalanced(mm, cc, kk, P, q, qp, qpp)
    ensures fm + fc + fk == P
  {
  }

  /** Uncoupled modes give diagonal step coefficients. */
  lemma CoeffsDiagonal(sys: ModalSystem, n: nat, prm: Params)
    requires Sized(sys, n) && Divisible(prm) && IsDiagonal(sys.M) && IsDiagonal(sys.C)
    ensures var co := Coeffs(sys, n, prm);
      IsDiagonal(co.a1) && IsDiagonal(co.a2) && IsDiagonal(co.a3)
  {
    assert A1(prm, 0.0, 0.0) == 0.0 && A2(prm, 0.0, 0.0) == 0.0 && A3(prm, 0.0, 0.0) == 0.0;
  }

  /** With diagonal coefficients each effective load involves its own mode only. */
  lemma EffectiveAt(co: Coefficients, n: nat, s: State, P: Vector, j: nat)
    requires CoefficientsSized(co, n) && StateSized(s, n) && |P| == n && j < n
    requires IsDiagonal(co.a1) && IsDiagonal(co.a2) && IsDiagonal(co.a3)
    ensures Loaded(Effective(co, n, s, P)[j], P[j], co.a1[j][j], co.a2[j][j], co.a3[j][j], s.q[j], s.qp[j], s.qpp[j])
  {
    DotSingle(co.a1[j], s.q, j);
    DotSingle(co.a2[j], s.qp, j);
    DotSingle(co.a3[j], s.qpp, j);
  }

  /** The first state solves `M@q̈0 = P0 − C@q̇0 − K@q0` when M is the identity,
      as it is for mass-normalised shapes. */
  lemma RestBalanced(sys: ModalSystem, n: nat, P0: Vector)
    requires Sized(sys, n) && |P0| == n && sys.M == Identity(n)
    ensures Balanced(sys, n, AtRest(sys, n, P0), P0)
  {
    var s := AtRest(sys, n, P0);
    MatVecZero(sys.C, s.qp);
    MatVecZero(sys.K, s.q);
    DiagonalMatVec(sys.M, s.qpp);
  }

  // ---------------------------------------------------------------------
  // What the march satisfies

  /** A sequence of states that starts at rest under the first load and
      advances one step per later load. */
  predicate Marches(sys: ModalSystem, n: nat, prm: Params, phi: Matrix, p: Matrix, states: seq<State>)
    requires Setting(sys, n, phi, p) && |states| <= Cols(p) && (|states| >= 2 ==> Marchable(sys, n, prm))
    requires forall i :: 0 <= i < |states| ==> StateSized(states[i], n)
  {
    && (|states| >= 1 ==> states[0] == AtRest(sys, n, ModalLoad(phi, p, 0)))
    && forall i :: 1 <= i < |states| ==>
         states[i] == Advance(Coeffs(sys, n, prm), n, prm, states[i - 1], ModalLoad(phi, p, i))
  }

  lemma {:induction false} TrajectoryMarches(sys: ModalSystem, n: nat, prm: Params, phi: Matrix, p: Matrix, t: nat)
    requires Setting(sys, n, phi, p) && t <= Cols(p) && (t >= 2 ==> Marchable(sys, n, prm))
    ensures Marches(sys, n, prm, phi, p, Trajectory(sys, n, prm, phi, p, t))
  {
    if t >= 2 {
      var states := Trajectory(sys, n, prm, phi, p, t);
      var prev := Trajectory(sys, n, prm, phi, p, t - 1);
      TrajectoryMarches(sys, n, prm, phi, p, t - 1);
      assert states == prev + [Advance(Coeffs(sys, n, prm), n, prm, prev[t - 2], ModalLoad(phi, p, t - 1))];
      forall i | 1 <= i < t
        ensures states[i] == Advance(Coeffs(sys, n, prm), n, prm, states[i - 1], ModalLoad(phi, p, i))
      {
        assert states[i - 1] == prev[i - 1];
        if i < t - 1 {
          assert states[i] == prev[i];
        }
      }
    }
  }

  /** Consecutive states of the march obey the Newmark relations. */
  lemma TrajectoryRelations(sys: ModalSystem, n: nat, prm: Params, phi: Matrix, p: Matrix, t: nat)
    requires Setting(sys, n, phi, p) && t <= Cols(p) && (t >= 2 ==> Marchable(sys, n, prm))
    ensures var states := Trajectory(sys, n, prm, phi, p, t);
      forall i :: 1 <= i < t ==> NewmarkRelations(prm, states[i - 1], states[i], n)
  {
    var states := Trajectory(sys, n, prm, phi, p, t);
    TrajectoryMarches(sys, n, prm, phi, p, t);
    forall i | 1 <= i < t
      ensures NewmarkRelations(prm, states[i - 1], states[i], n)
    {
      StepRelations(Coeffs(sys, n, prm), n, prm, states[i - 1], ModalLoad(phi, p, i));
    }
  }

  /** With mass-normalised, uncoupled modes (M = I, C and K diagonal) every
      state of the march satisfies the modal equations of motion at its load. */
  lemma TrajectoryBalanced(sys: ModalSystem, n: nat, prm: Params, phi: Matrix, p: Matrix, t: nat)
    requires Setting(sys, n, phi, p) && t <= Cols(p) && (t >= 2 ==> Marchable(sys, n, prm))
    requires sys.M == Identity(n) && IsDiagonal(sys.C) && IsDiagonal(sys.K)
    ensures var states := Trajectory(sys, n, prm, phi, p, t);
      forall i :: 0 <= i < t ==> Balanced(sys, n, states[i], ModalLoad(phi, p, i))
  {
    var states := Trajectory(sys, n, prm, phi, p, t);
    TrajectoryMarches(sys, n, prm, phi, p, t);
    forall i | 0 <= i < t
      ensures Balanced(sys, n, states[i], ModalLoad(phi, p, i))
    {
      if i == 0 {
        RestBalanced(sys, n, ModalLoad(phi, p, 0));
      } else {
        StepBalanced(sys, n, prm, states[i - 1], ModalLoad(phi, p, i));
      }
    }
  }

  predicate Still(s: State) {
    IsZeroVector(s.q) && IsZeroVector(s.qp) && IsZeroVector(s.qpp)
  }

  /** Without load the structure never leaves rest. */
  lemma QuietTrajectory(sys: ModalSystem, n: nat, prm: Params, phi: Matrix, p: Matrix, t: nat)
    requires Setting(sys, n, phi, p) && t <= Cols(p) && (t >= 2 ==> Marchable(sys, n, prm))
    requires IsZeroMatrix(p)
    ensures forall i :: 0 <= i < t ==> Still(Trajectory(sys, n, prm, phi, p, t)[i])
  {
    var states := Trajectory(sys, n, prm, phi, p, t);
    TrajectoryMarches(sys, n, prm, phi, p, t);
    forall i | 0 <= i < t
      ensures Still(states[i])
    {
      QuietStates(sys, n, prm, phi, p, states, i);
    }
  }

  lemma {:induction false} QuietStates(sys: ModalSystem, n: nat, prm: Params, phi: Matrix, p: Matrix,
                                       states: seq<State>, k: nat)
    requires Setting(sys, n, phi, p) && |states| <= Cols(p) && (|states| >= 2 ==> Marchable(sys, n, prm))
    requires forall i :: 0 <= i < |states| ==> StateSized(states[i], n)
    requires Marches(sys, n, prm, phi, p, states) && IsZeroMatrix(p) && k < |states|
    ensures Still(states[k])
  {
    var P := ModalLoad(phi, p, k);
    MatVecZero(Transpose(phi), Column(p, k));
    if k == 0 {
      var z := Zeros(n);
      MatVecZero(sys.C, z);
      MatVecZero(sys.K, z);
    } else {
      QuietStates(sys, n, prm, phi, p, states, k - 1);
      QuietStep(Coeffs(sys, n, prm), n, prm, states[k - 1], P);
    }
  }

  /** From rest and without load one step stays at rest. */
  lemma QuietStep(co: Coefficients, n: nat, prm: Params, s: State, P: Vector)
    requires CoefficientsSized(co, n) && PivotsNonZero(co, n) && Divisible(prm)
    requires StateSized(s, n) && |P| == n && Still(s) && IsZeroVector(P)
    ensures Still(Advance(co, n, prm, s, P))
  {
    MatVecZero(co.a1, s.q);
    MatVecZero(co.a2, s.qp);
    MatVecZero(co.a3, s.qpp);
    var pp := Effective(co, n, s, P);
    assert IsZeroVector(pp);
    var s1 := Advance(co, n, prm, s, P);
    forall j | 0 <= j < n
      ensures s1.q[j] == 0.0 && s1.qp[j] == 0.0 && s1.qpp[j] == 0.0
    {
      assert s1.q[j] == 0.0 / co.kp[j][j];
      StillUpdates(prm);
    }
  }

  lemma StillUpdates(prm: Params)
    requires Divisible(prm)
    ensures NextVelocity(prm, 0.0, 0.0, 0.0, 0.0) == 0.0 && NextAcceleration(prm, 0.0, 0.0, 0.0, 0.0) == 0.0
  {
  }

  /** Column t of u, up and upp is Φ applied to the modal state at step t. */
  lemma ResponseColumns(phi: Matrix, states: seq<State>, n: nat, x: nat, t: nat)
    requires n > 0 && |phi| > 0 && IsMatrix(phi, |phi|, n)
    requires forall i :: 0 <= i < |states| ==> StateSized(states[i], n)
    requires x < |phi| && t < |states|
    ensures var r := Respond(phi, states, n);
      && r.u[x][t] == Dot(phi[x], states[t].q)
      && r.up[x][t] == Dot(phi[x], states[t].qp)
      && r.upp[x][t] == Dot(phi[x], states[t].qpp)
  {
    assert Column(Displacements(states, n), t) == states[t].q;
    assert Column(Velocities(states, n), t) == states[t].qp;
    assert Column(Accelerations(states, n), t) == states[t].qpp;
  }

  /** A march that starts from rest has zero displacement and velocity at t = 0. */
  lemma StartsAtRest(phi: Matrix, states: seq<State>, n: nat)
    requires n > 0 && |phi| > 0 && IsMatrix(phi, |phi|, n)
    requires forall i :: 0 <= i < |states| ==> StateSized(states[i], n)
    requires |states| > 0 && IsZeroVector(states[0].q) && IsZeroVector(states[0].qp)
    ensures forall x :: 0 <= x < |phi| ==>
      Respond(phi, states, n).u[x][0] == 0.0 && Respond(phi, states, n).up[x][0] == 0.0
  {
    forall x | 0 <= x < |phi|
      ensures Respond(phi, states, n).u[x][0] == 0.0 && Respond(phi, states, n).up[x][0] == 0.0
    {
      ResponseColumns(phi, states, n, x, 0);
      DotToZero(phi[x], states[0].q, n);
      DotToZero(phi[x], states[0].qp, n);
    }
  }

  /** Without ground motion the computed response is identically zero. */
  lemma QuietGround(sys: ModalSystem, n: nat, prm: Params, phi: Matrix, p: Matrix)
    requires Setting(sys, n, phi, p) && n > 0 && (Cols(p) >= 2 ==> Marchable(sys, n, prm))
    requires IsZeroMatrix(p)
    ensures var r := Respond(phi, Trajectory(sys, n, prm, phi, p, Cols(p)), n);
      IsZeroMatrix(r.u) && IsZeroMatrix(r.up) && IsZeroMatrix(r.upp)
  {
    var states := Trajectory(sys, n, prm, phi, p, Cols(p));
    QuietTrajectory(sys, n, prm, phi, p, Cols(p));
    var r := Respond(phi, states, n);
    forall x, t | 0 <= x < |phi| && 0 <= t < Cols(p)
      ensures r.u[x][t] == 0.0 && r.up[x][t] == 0.0 && r.upp[x][t] == 0.0
    {
      ResponseColumns(phi, states, n, x, t);
      assert Still(states[t]);
      DotToZero(phi[x], states[t].q, n);
      DotToZero(phi[x], states[t].qp, n);
      DotToZero(phi[x], states[t].qpp, n);
    }
  }
}
