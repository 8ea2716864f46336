# Structural dynamics of a shear building, in Dafny

This project models the computational engine of a seismic-analysis desktop
application (`app.py`). A building of n storeys is reduced to a shear
building. The engine performs these steps:

- It assembles a tridiagonal stiffness matrix from the storey stiffnesses
  (`VGL.MatrizRigidez`) and a diagonal mass matrix from the floor masses
  (`VGL.MatrizMasa`).
- It solves the eigenproblem k·φ = ω²·m·φ with a fixed number of cyclic
  Jacobi sweeps (class `Jacobi`), on the classical matrix r·k·r with
  r = diag(m^-1/2) (`VGL.Modos`).
- It derives periods, normalised shapes, the longest-period-first order and
  participation factors (`VGL.Modos`).
- It integrates the response to a ground-acceleration record in modal
  coordinates with the Newmark-β method (`VGL.Newmark`). The load is
  built as p(t) = -m·𝟙·a(t) by the simulation view (`mdof`).
- It also defines the Butterworth gain curves `GL`, `GH` and `GB`, used
  to filter records.

Conventions:

- **Numbers and matrices.** The model works over exact reals. Matrices are
  `seq<seq<real>>`.
- **Transcendental functions.** sqrt, sin, cos, atan and π are fields of a
  `MathLib` record passed in by the caller. `Transcendental.Lawful` lists
  the identities that the proofs about them assume: principal square
  roots, Pythagoras, tan(atan y) = y, the double-angle formulas at
  half-arctangents, sin(π/4) = cos(π/4) and π > 0.
- **Failures.** A Python exception, or an inf/nan that numpy would
  silently put into an array, becomes an `Outcome.Result` error:
  - `IndexError` for `args[1]` on fewer than two storeys, and for
    `M[0]` or `p[0]` on empty matrices.
  - `ShapeMismatch` for Φᵀ·p on a load with the wrong number of rows.
  - `ZeroDivision` for `γ/β` on Python floats when β = 0.
  - `NonFinite` for a division by zero, or the root of a negative number,
    inside numpy.
  The gain curves are the exception: `GL`, `GH` and `GB` require non-zero
  cutoffs instead (see Left out).

Modules, one per part of the engine:

- `LinAlg`: vector and matrix algebra and its lemmas.
- `Transcendental`: the `MathLib` record and `Lawful`.
- `Outcome`: the `Result` and error datatypes.
- `ShearBuilding`: `MatrizRigidez` and `MatrizMasa`.
- `JacobiRotation`: `θ`, `P` and one rotation Pᵀ·Ak·P.
- `JacobiSweep`: `un_ciclo` and the `Jacobi` constructor.
- `ModalAnalysis`: `Modos`.
- `ModesFinding`: a worked example that exhibits the finding below.
- `NewmarkIntegration`: `Newmark`.
- `SeismicResponse`: `mdof`.
- `Butterworth`: `GL`, `GH` and `GB`.

## Behaviour of the code worth noting

The model follows the code in each of these cases.

- **Physical mode shapes.** `Modos` (app.py:1237-1242) normalises the
  Jacobi vectors Ψ of r·k·r against m directly and never maps them back
  through r. The eigenvectors of k·φ = ω²·m·φ are φ = r·ψ, by the change of
  variable in Chopra's *Dynamics of Structures* that the `Newmark` docstring
  cites. `ModalAnalysis.ModesAsWritten` models the code and
  `ModalAnalysis.Modes` models Φ = r·Ψ. See Findings.
- **Sort stability.** The exchange over every pair i < j
  (app.py:1246-1253) is not stable: it can reorder equal periods. The model
  proves only ordering and permutation.
- **Initial acceleration.** `Newmark` sets q̈₀ = P₀ − C·q̇₀ − K·q₀
  (app.py:1318-1320), which is the modal balance with the modal mass
  Φᵀ·m·Φ taken as the identity. The model does the same, and
  `NewmarkIntegration.RestBalanced` states the balance under that identity.
- **Single storey.** `MatrizRigidez` reads `args[1]` unconditionally
  (app.py:1198-1199), so fewer than two storeys raise `IndexError`.
- **Band-pass cutoffs.** `GB` (app.py:73-85) does not check fl ≤ fh, and
  neither does the model.

## Model

| member | source | states |
|---|---|---|
| ShearBuilding.StiffnessMatrix | app.py:1189-1209 | fails with an index error exactly when there are fewer than two storeys; otherwise K is square, symmetric and tridiagonal, couples floors i and i+1 through -args[i+1], and under a unit rigid displacement row 0 sums to args[0] and every other row to 0 |
| ShearBuilding.AssembledShape | app.py:1197-1207 | the entries the assembly loop writes make a symmetric tridiagonal shear stiffness with those coupling terms and row sums |
| ShearBuilding.RowSums | app.py:1197-1207 | the ground storey's stiffness is the only unbalanced row sum of the assembled matrix |
| ShearBuilding.MassMatrix | app.py:1211-1223 | the mass matrix is square and diagonal and holds the floor masses on its diagonal |
| JacobiRotation.PlaneRotation | app.py:1363-1371 | P equals the identity everywhere outside rows and columns i, j |
| JacobiRotation.RotationOrthogonal | app.py:1363-1371 | given cos² + sin² = 1, the rotation satisfies PᵀP = I |
| JacobiRotation.RotationInverse | app.py:1363-1371 | P·Pᵀ = I, so the rotation can be undone |
| JacobiRotation.RotationTranspose | app.py:1363-1371 | the transpose of the rotation by (c, s) is the rotation by (c, -s) |
| JacobiRotation.LeftRotation | app.py:1386 | Pᵀ·A only mixes rows i and j with weights (c, s) and (-s, c) and leaves every other row as it was |
| JacobiRotation.RightRotation | app.py:1386-1388 | A·P only mixes columns i and j and leaves every other column as it was |
| JacobiRotation.RotateClosedForm | app.py:1385-1386 | Pᵀ·Ak·P equals the row mix followed by the column mix at the angle θ of the current pivot |
| JacobiRotation.RotateFrame | app.py:1386 | the rotation changes no entry outside rows and columns i and j |
| JacobiRotation.RotateSymmetric | app.py:1386 | a symmetric Ak stays symmetric after the rotation |
| JacobiRotation.ThetaClearsPivot | app.py:1373-1377 | for both branches of θ (a tie on the diagonal, and the half arctangent) the rotated pivot (c² − s²)·aij − c·s·(aii − ajj) is zero |
| JacobiRotation.RotateClearsPivot | app.py:1365-1386 | on a symmetric Ak the rotation zeroes entries (i, j) and (j, i) |
| JacobiRotation.AccumulateFrame | app.py:1388 | multiplying the accumulated product by P mixes its columns i and j and keeps the rest |
| JacobiRotation.AccumulateOrthogonal | app.py:1388 | an orthogonal accumulated product stays orthogonal after multiplication by P |
| JacobiSweep.SweepOrderVisitsEachPairOnce | app.py:1381-1382 | one sweep visits exactly the pairs i < j < t, each once, in row-major (lexicographic) order, t(t−1)/2 of them |
| JacobiSweep.SweepRow | app.py:1382-1388 | the inner loop over j applies the rotations (i, i+1), …, (i, t−1) in that order |
| JacobiSweep.Sweep | app.py:1379-1388 | `un_ciclo` applies the rotations of the pairs in sweep order, one after the other |
| JacobiSweep.RunCount | app.py:1384 | the counter s grows by one per rotation applied |
| JacobiSweep.RunAppend | app.py:1379-1388 | running two lists of pairs one after the other is running their concatenation |
| JacobiSweep.RunSymmetric | app.py:1386 | any run of rotations keeps a symmetric Ak symmetric |
| JacobiSweep.RunOrthogonal | app.py:1388 | any run of rotations keeps the accumulated product orthogonal |
| JacobiSweep.RunSimilar | app.py:1386-1388 | any run of rotations keeps A·Φ = Φ·Ak, so Ak stays similar to the input |
| JacobiSweep.Frequencies | app.py:1357-1360 | Ω is diagonal and each non-negative Ak[i][i] is the square of a non-negative Ω[i][i] |
| JacobiSweep.Solve | app.py:1346-1361 | on an empty matrix `len(A[0])` fails; otherwise n sweeps give the state of the sweep function, the counter n·t(t−1)/2, Ω from the final Ak, a symmetric Ak for a symmetric input, an orthogonal Φ and A·Φ = Φ·Ak |
| JacobiSweep.ConvergedEigenpairs | app.py:1357-1361 | once Ak is diagonal, column i of Φ is an eigenvector of A with eigenvalue Ak[i][i] |
| ModalAnalysis.MassScaling | app.py:1228-1231 | the scaling r = m^-1/2 exists exactly when every floor mass is positive, and then r[i]²·m[i][i] = 1 |
| ModalAnalysis.ClassicalEntries | app.py:1233 | A = r·k·r has entries r[x]·k[x][y]·r[y] |
| ModalAnalysis.ClassicalSymmetric | app.py:1233 | A is symmetric when k is |
| ModalAnalysis.Normalised | app.py:1241-1242 | a column can be normalised exactly when its modal mass φᵀ·m·φ is positive; otherwise numpy yields inf or nan |
| ModalAnalysis.NormalisedUnit | app.py:1241-1242 | a normalised column has unit modal mass |
| ModalAnalysis.NormalisedKeepsUnit | app.py:1241-1242 | normalising a column of unit modal mass leaves it unchanged |
| ModalAnalysis.PeriodTimesFrequency | app.py:1236 | T = 2π/ω is positive and T·ω = 2π |
| ModalAnalysis.ModeOfFacts | app.py:1236-1242 | a positive Ak[i][i] and a positive modal mass give a mode with ω > 0, ω² = Ak[i][i], T·ω = 2π and a unit-mass shape |
| ModalAnalysis.InitialModes | app.py:1235-1242 | the modes exist exactly when every one does, and mode i is built from Ak[i][i] and column i |
| ModalAnalysis.CorrectedExists | app.py:1236-1242 | with unit-mass shapes, the modes exist exactly when every diagonal entry of Ak is positive |
| ModalAnalysis.ExchangeSort | app.py:1246-1253 | the periods come out non-increasing, and the (T, Ω, shape) triples are a permutation of the input triples, moved together |
| ModalAnalysis.PlaceLongest | app.py:1247-1253 | one pass of the outer loop puts a longest remaining period at position i and keeps the triples a permutation |
| ModalAnalysis.SwapTracks | app.py:1249-1252 | exchanging two triples keeps track of which input triple sits where |
| ModalAnalysis.Participation | app.py:1256-1260 | Γ is defined exactly when the modal mass is non-zero |
| ModalAnalysis.ParticipationOfUnitShape | app.py:1256-1260 | for a unit-mass shape Γ = φᵀ·m·𝟙, and for a diagonal m it is the mass-weighted sum of the shape |
| ModalAnalysis.Gammas | app.py:1255-1260 | the factors exist exactly when every modal mass is non-zero, one factor per mode |
| ModalAnalysis.ScaledShapesOrthonormal | app.py:1228-1233 | mapping orthonormal Jacobi vectors back through r gives shapes with Φᵀ·m·Φ = I |
| ModalAnalysis.ScaledEigenvector | app.py:1228-1233 | an eigenvector ψ of r·k·r with eigenvalue λ maps to a solution r·ψ of k·φ = λ·m·φ |
| ModalAnalysis.PostProcess | app.py:1235-1260 | fails exactly when some mode or factor is not finite; on success it lists the modes found, longest period first, with their factors and the facts each mode carries |
| ModalAnalysis.ResultOrthonormal | app.py:1241-1253 | sorting unit, mutually m-orthogonal shapes keeps Φᵀ·m·Φ = I |
| ModalAnalysis.ResultGammas | app.py:1256-1260 | with a diagonal m every Γ is the mass-weighted sum of its column |
| ModalAnalysis.ResultEigenpairs | app.py:1225-1260 | once Ak is diagonal every listed column and frequency solve k·φ = ω²·m·φ |
| ModalAnalysis.CorrectedFacts | app.py:1225-1260 | the corrected result exists exactly when Ak has a positive diagonal; it is mass-orthonormal, its Γ are mass sums, and it solves the eigenproblem once Ak is diagonal |
| ModalAnalysis.Modes | app.py:1225-1260 | `Modos` with shapes mapped back through r: the error cases, success exactly when Ak's diagonal is positive (for positive diagonal masses), periods non-increasing, Φᵀ·m·Φ = I, Γ as mass sums, and k·φ = ω²·m·φ once Ak is diagonal |
| ModalAnalysis.ModesAsWritten | app.py:1225-1260 | `Modos` as written: the same error cases; on success it lists the modes of the unmapped Jacobi vectors, longest period first |
| ModesFinding.ExampleBuilding | app.py:1189-1223 | storeys (3, 1) and masses (4, 1) give k = [[4, -1], [-1, 1]] and m = diag(4, 1) |
| ModesFinding.ExampleJacobi | app.py:1228-1235 | for that building one sweep is the single rotation of [[1, -1/2], [-1/2, 1]] in the plane (0, 1) |
| ModesFinding.ExampleRotatedDiagonal | app.py:1373-1386 | that rotation (θ = π/4) leaves the eigenvalues 1/2 and 3/2 on the diagonal |
| ModesFinding.ExampleRawForms | app.py:1241 | against m the two raw Jacobi columns have modal mass 5/2 and cross term -3/2 |
| ModesFinding.AsWrittenModes | app.py:1237-1242 | the shapes `Modos` builds for the example have cross term -3/5 against m |
| ModesFinding.AsWrittenNotMassOrthonormal | app.py:1237-1253 | whatever order the sort leaves them in, those shapes break Φᵀ·m·Φ = I |
| NewmarkIntegration.Project | app.py:1303-1308 | M and K of the retained shapes have entries φₐᵀ·m·φ_b and φₐᵀ·k·φ_b |
| NewmarkIntegration.ModalLoad | app.py:1329-1331 | the modal load at instant t has component a equal to φₐ·p[:, t] |
| NewmarkIntegration.Coeffs | app.py:1323-1327 | a1, a2 and a3 are the Newmark combinations of M and C entry by entry, and Kp = K + a1 |
| NewmarkIntegration.CoeffsDiagonal | app.py:1323-1325 | diagonal M and C give diagonal a1, a2 and a3 |
| NewmarkIntegration.Advance | app.py:1331-1338 | each new q[j] is the effective load divided by Kp[j][j] alone, and the new velocity and acceleration follow the Newmark updates |
| NewmarkIntegration.StepRelations | app.py:1329-1338 | every step satisfies q' = q + Δt·q̇ + Δt²((1/2 − β)q̈ + β·q̈') and q̇' = q̇ + Δt((1 − γ)q̈ + γ·q̈') |
| NewmarkIntegration.StepBalanced | app.py:1323-1338 | with diagonal modal M, C and K, every new state satisfies M·q̈ + C·q̇ + K·q = P at its load |
| NewmarkIntegration.RestBalanced | app.py:1313-1320 | the initial state rests and balances its load when M = I |
| NewmarkIntegration.TrajectoryMarches | app.py:1313-1338 | the computed states start at rest under the first load and each later one is one step from the previous |
| NewmarkIntegration.TrajectoryRelations | app.py:1329-1338 | consecutive computed states obey the Newmark relations |
| NewmarkIntegration.TrajectoryBalanced | app.py:1313-1338 | for mass-normalised uncoupled modes every computed state satisfies the modal equations of motion |
| NewmarkIntegration.QuietTrajectory | app.py:1313-1338 | without load every computed state is at rest |
| NewmarkIntegration.ResponseColumns | app.py:1340-1342 | u, up and upp at floor x and instant t are row x of Φ applied to q, q̇ and q̈ |
| NewmarkIntegration.StartsAtRest | app.py:1313-1342 | u and up are zero at the first instant |
| NewmarkIntegration.QuietGround | app.py:1313-1342 | a zero load gives identically zero u, up and upp |
| NewmarkIntegration.March | app.py:1313-1338 | the time loop produces one state per load column, starting at rest and stepping by the Newmark formulas |
| NewmarkIntegration.Newmark | app.py:1262-1342 | the error cases (no retained mode, empty load, wrong load height, β = 0, a zero Kp pivot or Δt = 0); success exactly when none applies; u, up and upp of one column per load column, at rest at the first instant, and equal to Φ times the march |
| SeismicResponse.LoadColumns | app.py:789-790 | each column of the seismic load is -m·𝟙 scaled by the ground acceleration at that instant |
| SeismicResponse.DiagonalLoad | app.py:789-790 | with a diagonal mass matrix floor x carries -m[x][x]·a(t) |
| SeismicResponse.UniformLoad | app.py:784-790 | with equal floor masses every floor carries the same load history |
| SeismicResponse.StillGroundLoad | app.py:789-790 | a record without ground motion gives a zero load |
| SeismicResponse.QuietResponse | app.py:1313-1342 | whatever `Newmark` accepts, a zero load leaves every floor at rest |
| SeismicResponse.Mdof | app.py:775-791 | with the modes of `Modos` as written, fewer than two storeys fail with an index error; a success has one row per floor and one column per sample, starts at rest, and stays at rest when the ground does not move |
| ModesFinding.EqualMassModes | app.py:1237-1242 | with equal floor masses, normalising the Jacobi vectors Ψ gives the same modes as normalising r·Ψ |
| ModesFinding.EqualMassesHideFinding | app.py:784-787 | with equal positive floor masses, as `mdof` builds them, the shapes `Modos` returns as written are mass-orthonormal |
| Butterworth.SquaredGains | app.py:45-85 | with x = (f/fc)^(2n): GL² = x/(1+x), GH² = 1/(1+x) and GB² is their product |
| Butterworth.GainsAtZero | app.py:45-85 | at f = 0 the low cut gives 0, the high cut 1 and the band-pass 0 |
| Butterworth.GainBounds | app.py:45-85 | 0 ≤ GL < 1, 0 < GH ≤ 1 and 0 ≤ GB < 1 |
| Butterworth.HalfPowerAtCutoff | app.py:45-71 | at its own cutoff each gain passes half the power |
| Butterworth.GainMonotone | app.py:45-71 | over non-negative frequencies GL rises and GH falls |

## Left out

- The graphical interface is not modelled. This covers the main window, every `view*` method and plotting, animation and settings. It is presentation, not computation.
- File input is not modelled: CSV loading and `QFile`.
- The FFT steps of `Butterworth_Bandpass` (`rfft`, `rfftfreq`, `irfft`) are not modelled. They are foreign library calls. Only the gain curves are modelled.
- `BaseLineCorrection` is not modelled. Its fitting is done by `np.polyfit` and `LSQUnivariateSpline`. Separately, its default `type='polynomial'` matches neither branch (`'Polinomial'` or `'Spline'`), so the default call reaches `return at - fit_at` with `fit_at` unbound.
- The `cumtrapz` velocity and displacement integrations in the views are not modelled. They are library calls used for display.
- The choice of record direction in `mdof` (`acc_corr[0]` or `acc_corr[1]`) is left to the caller. `SeismicResponse.Mdof` takes the chosen record as a parameter. The object state that `VGL` threads between calls is passed explicitly.
- Floating point is not modelled: rounding, Jacobi convergence, and the Newmark stability bound in the docstring. The model is exact over the reals.
- The tutorial script `BASICO/comandos_basicos.py` is not part of this model. It holds no reusable logic.
- Butterworth.GL: a zero cutoff, which the view can pass as a float (app.py:592-593) and where numpy yields nan from f/fl, is excluded by the requires rather than reported as an error.
- Butterworth.GH: a zero cutoff, where numpy yields nan from f/fh, is excluded by the requires.
- Butterworth.GB: a zero cutoff, where numpy yields nan, is excluded by the requires.
- Butterworth.GL: the order n is a natural number. The view passes a float order (app.py:591), and non-integer orders are not modelled.
- JacobiSweep.Frequencies: a negative diagonal entry of Ak gives `nan` in numpy. The model only states Ω[i][i] for non-negative entries.
- ModalAnalysis.Modes: the model does not prove that the sweeps converge. The eigenproblem is stated under the hypothesis that Ak has become diagonal.
- NewmarkIntegration.Newmark: a zero Kp pivot or Δt = 0 is reported as `NonFinite`. Numpy would fill the arrays with inf/nan. For Δt = 0, `γ/(β*Δt)` raises `ZeroDivisionError` instead when Δt is a Python float.
- SeismicResponse.Mdof: does not state when the run succeeds. That depends on the sweeps producing a positive diagonal and non-zero pivots.

## Findings

| source | as written | input that shows it | evidently intended | confidence | as-written member | corrected member |
|---|---|---|---|---|---|---|
| app.py:1237-1242 | `Modos` takes the Jacobi vectors Ψ of the classical matrix r·k·r as the mode shapes and normalises them against m. It never maps them back to physical coordinates with Φ = r·Ψ, so the shapes it returns need not be m-orthogonal. The defect never shows at the only caller, `mdof` (app.py:784-787): its floor masses are equal, so r is a multiple of the identity (`ModesFinding.EqualMassesHideFinding`). | storey stiffnesses (3, 1), floor masses (4, 1), one sweep: the classical matrix is [[1, -1/2], [-1/2, 1]], its rotation is by π/4, and the two normalised shapes have cross term -3/5 against m | Φ = r·Ψ before normalising, which gives Φᵀ·m·Φ = I and k·φ = ω²·m·φ (the initial acceleration at app.py:1318-1320, which takes M = Φᵀ·m·Φ as the identity, relies on it) | proved on the model; not executed | ModesFinding.AsWrittenModes | ModalAnalysis.Modes |
