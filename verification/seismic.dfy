/** The seismic run of the simulation view (`mdof` inside `viewSimula`): a
    building of n identical storeys, every floor of mass m and every storey of
    stiffness k, shaken at its base by a ground-acceleration record. The load
    is p(t) = -m·1·a(t), the modes come from 500 Jacobi sweeps, and the
    response keeps all n modes. */
module SeismicResponse {
  import opened LinAlg
  import opened Transcendental
  import opened Outcome
  import opened ShearBuilding
  import opened ModalAnalysis
  import opened NewmarkIntegration

  /** The sweep count the simulation view asks `Modos` for. */
  const SimulationSweeps: nat := 500

  /** n copies of one storey value: `[m for i in range(n)]`. */
  function Uniform(n: nat, v: real): (args: seq<real>)
    ensures |args| == n && forall i :: 0 <= i < n ==> args[i] == v
  {
    seq(n, _ => v)
  }

  /** `-mm@I*at`: the column mm·1 of floor masses, negated and broadcast
      against the record, so that row x, instant t holds -(mm·1)[x]·at[t].
      Negating before or after the product gives the same value. */
  function SeismicLoad(mm: Matrix, at: seq<real>): (p: Matrix)
    requires IsSquare(mm, |mm|)
    ensures IsMatrix(p, |mm|, |at|) && Rect(p)
  {
    var w := MatVec(mm, Ones(|mm|));
    seq(|mm|, x requires 0 <= x < |mm| => seq(|at|, t requires 0 <= t < |at| => -w[x] * at[t]))
  }

  /** Every column of the load is the inertia vector -mm·1 scaled by the
      ground acceleration at that instant. */
  lemma LoadColumns(mm: Matrix, at: seq<real>, t: nat)
    requires IsSquare(mm, |mm|) && t < |at|
    ensures Column(SeismicLoad(mm, at), t) == ScaleVec(-at[t], MatVec(mm, Ones(|mm|)))
  {
    var p := SeismicLoad(mm, at);
    var w := MatVec(mm, Ones(|mm|));
    forall x | 0 <= x < |mm|
      ensures Column(p, t)[x] == ScaleVec(-at[t], w)[x]
    {
      assert p[x][t] == -w[x] * at[t];
    }
  }

  /** With a diagonal mass matrix each floor feels minus its own mass times
      the ground acceleration. */
  lemma DiagonalLoad(mm: Matrix, at: seq<real>)
    requires IsSquare(mm, |mm|) && IsDiagonal(mm)
    ensures forall x, t :: 0 <= x < |mm| && 0 <= t < |at| ==>
      SeismicLoad(mm, at)[x][t] == -mm[x][x] * at[t]
  {
    var n := |mm|;
    forall x | 0 <= x < n
      ensures MatVec(mm, Ones(n))[x] == mm[x][x]
    {
      DotSingle(mm[x], Ones(n), x);
    }
  }

  /** With equal floor masses every floor carries the same load history. */
  lemma UniformLoad(mm: Matrix, m: real, at: seq<real>)
    requires IsSquare(mm, |mm|) && IsDiagonal(mm)
    requires forall i :: 0 <= i < |mm| ==> mm[i][i] == m
    ensures forall x, t :: 0 <= x < |mm| && 0 <= t < |at| ==>
      SeismicLoad(mm, at)[x][t] == -m * at[t]
  {
    DiagonalLoad(mm, at);
  }

  /** A record without ground motion loads nothing. */
  lemma StillGroundLoad(mm: Matrix, at: seq<real>)
    requires IsSquare(mm, |mm|) && IsZeroVector(at)
    ensures IsZeroMatrix(SeismicLoad(mm, at))
  {
    var p := SeismicLoad(mm, at);
    forall x, t | 0 <= x < |mm| && 0 <= t < |at|
      ensures p[x][t] == 0.0
    {
      assert at[t] == 0.0;
    }
  }

  /** `mdof(n, direct, m, k)` once the record `at` of the chosen direction is
      picked: assemble the building, find its modes with `Modos` as written
      and integrate the response under p(t) = -mm·1·at(t), keeping n modes,
      with time step dt and the default damping and Newmark parameters. The
      floors all have mass m, so the unmapped shapes are still
      mass-orthonormal here (`ModesFinding.EqualMassesHideFinding`). */
  method Mdof(lib: MathLib, n: nat, m: real, k: real, at: seq<real>, dt: real)
    returns (r: Result<Response>)
    ensures n < 2 ==> r == Err(IndexError)
    ensures r.Ok? ==> n >= 2
    ensures r.Ok? ==>
      IsMatrix(r.value.u, n, |at|) && IsMatrix(r.value.up, n, |at|) && IsMatrix(r.value.upp, n, |at|)
    ensures r.Ok? && |at| > 0 ==>
      forall x :: 0 <= x < n ==> r.value.u[x][0] == 0.0 && r.value.up[x][0] == 0.0
    ensures r.Ok? && IsZeroVector(at) ==>
      IsZeroMatrix(r.value.u) && IsZeroMatrix(r.value.up) && IsZeroMatrix(r.value.upp)
  {
    var mm := MassMatrix(Uniform(n, m));
    var kk := StiffnessMatrix(Uniform(n, k));
    if kk.Err? {
      return Err(kk.error);
    }
    var modes, perm := ModesAsWritten(lib, kk.value, mm, SimulationSweeps);
    if modes.Err? {
      return Err(modes.error);
    }
    var p := SeismicLoad(mm, at);
    var prm := DefaultParams(dt);
    r := Newmark(mm, kk.value, modes.value.phi, modes.value.omega, n, p, prm);
    if r.Ok? && IsZeroVector(at) {
      StillGroundLoad(mm, at);
      QuietResponse(mm, kk.value, modes.value.phi, modes.value.omega, n, p, prm, r.value);
    }
  }

  /** Whatever `Newmark` accepts, a load that is zero throughout leaves every
      floor at rest. */
  lemma QuietResponse(m: Matrix, k: Matrix, phi: Matrix, omega: Matrix, J: int, p: Matrix, prm: Params, resp: Response)
    requires IsSquare(m, |m|) && IsSquare(k, |m|) && IsSquare(phi, |m|) && IsSquare(omega, |m|) && Rect(p)
    requires Accepts(m, k, phi, omega, J, p, prm) && IsZeroMatrix(p)
    requires var e := SliceStop(J, |m|);
      var phiJ := FirstColumns(phi, e);
      var sys := Project(m, k, phiJ, LeadingBlock(omega, e), prm.zeta);
      resp == Respond(phiJ, Trajectory(sys, e, prm, phiJ, p, Cols(p)), e)
    ensures IsZeroMatrix(resp.u) && IsZeroMatrix(resp.up) && IsZeroMatrix(resp.upp)
  {
    var e := SliceStop(J, |m|);
    var phiJ := FirstColumns(phi, e);
    var sys := Project(m, k, phiJ, LeadingBlock(omega, e), prm.zeta);
    QuietGround(sys, e, prm, phiJ, p);
  }
}
