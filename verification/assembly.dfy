/** Assembly of the shear-building matrices (`VGL.MatrizRigidez` and
    `VGL.MatrizMasa`): storey i joins floor i to the floor below it, the ground
    for i == 0, and every storey has a spring stiffness and a floor mass. */
module ShearBuilding {
  import opened LinAlg
  import opened Outcome

  /** Only the main diagonal and its two neighbours may be non-zero. */
  predicate Tridiagonal(K: Matrix)
    requires IsSquare(K, |K|)
  {
    forall i, j :: 0 <= i < |K| && 0 <= j < |K| && (i > j + 1 || j > i + 1) ==> K[i][j] == 0.0
  }

  /** The value the assembly loop leaves at K[i][j]. */
  function StiffnessEntry(args: seq<real>, i: nat, j: nat): real
    requires 2 <= |args| && i < |args| && j < |args|
  {
    var n := |args|;
    if i == 0 then
      (if j == 0 then args[0] + args[1] else if j == 1 then -args[1] else 0.0)
    else if i < n - 1 then
      (if j == i - 1 then -args[i]
       else if j == i then args[i] + args[i + 1]
       else if j == i + 1 then -args[i + 1]
       else 0.0)
    else
      (if j == n - 2 then -args[n - 1] else if j == n - 1 then args[n - 1] else 0.0)
  }

  /** The shape of a stiffness matrix built from storey stiffnesses `args`:
      symmetric, tridiagonal, coupling floors i and i+1 through storey i+1,
      and in equilibrium under a rigid unit displacement except for the
      ground storey. The four facts together fix every entry. */
  ghost predicate IsShearStiffness(K: Matrix, args: seq<real>)
  {
    var n := |args|;
    && IsSquare(K, n)
    && Symmetric(K)
    && Tridiagonal(K)
    && (forall i :: 0 <= i < n - 1 ==> K[i][i + 1] == -args[i + 1])
    && (forall i :: 0 <= i < n ==> MatVec(K, Ones(n))[i] == (if i == 0 then args[0] else 0.0))
  }

  lemma RowSums(K: Matrix, args: seq<real>)
    requires 2 <= |args| && IsSquare(K, |args|)
    requires forall i, j :: 0 <= i < |args| && 0 <= j < |args| ==> K[i][j] == StiffnessEntry(args, i, j)
    ensures forall i :: 0 <= i < |args| ==> MatVec(K, Ones(|args|))[i] == (if i == 0 then args[0] else 0.0)
  {
    var n := |args|;
    var one := Ones(n);
    forall i | 0 <= i < n
      ensures Dot(K[i], one) == (if i == 0 then args[0] else 0.0)
    {
      if i == 0 {
        DotPair(K[0], one, 0, 1);
      } else if i < n - 1 {
        DotTriple(K[i], one, i - 1, i, i + 1);
      } else {
        DotPair(K[i], one, n - 2, n - 1);
      }
    }
  }

  /** A matrix holding the assembly loop's entries has the shear-building
      shape. */
  lemma AssembledShape(K: Matrix, args: seq<real>)
    requires 2 <= |args| && IsSquare(K, |args|)
    requires forall i, j :: 0 <= i < |args| && 0 <= j < |args| ==> K[i][j] == StiffnessEntry(args, i, j)
    ensures IsShearStiffness(K, args)
  {
    RowSums(K, args);
  }

  /** `MatrizRigidez(args)`: fails with an index error below two storeys,
      because the source reads `args[1]` unconditionally. */
  method StiffnessMatrix(args: seq<real>) returns (r: Result<Matrix>)
    ensures r.Err? <==> |args| < 2
    ensures r.Err? ==> r.error == IndexError
    ensures r.Ok? ==> IsShearStiffness(r.value, args)
  {
    var n := |args|;
    if n < 2 {
      return Err(IndexError);
    }
    var k := ZeroMatrix(n, n);
    k := SetEntry(k, 0, 0, args[0] + args[1]);
    k := SetEntry(k, 0, 1, -args[1]);
    var i := 1;
    while i < n - 1
      invariant 1 <= i <= n - 1 || (n == 2 && i == 1)
      invariant IsSquare(k, n)
      invariant forall r, c :: 0 <= r < i && 0 <= c < n ==> k[r][c] == StiffnessEntry(args, r, c)
      invariant forall r, c :: i <= r < n && 0 <= c < n ==> k[r][c] == 0.0
    {
      k := SetEntry(k, i, i - 1, -args[i]);
      k := SetEntry(k, i, i, args[i] + args[i + 1]);
      k := SetEntry(k, i, i + 1, -args[i + 1]);
      i := i + 1;
    }
    k := SetEntry(k, n - 1, n - 2, -args[n - 1]);
    k := SetEntry(k, n - 1, n - 1, args[n - 1]);
    assert forall r, c :: 0 <= r < n && 0 <= c < n ==> k[r][c] == StiffnessEntry(args, r, c);
    AssembledShape(k, args);
    return Ok(k);
  }

  /** `MatrizMasa(args)`: the floor masses on the diagonal, zero elsewhere. */
  method MassMatrix(args: seq<real>) returns (m: Matrix)
    ensures IsSquare(m, |args|) && IsDiagonal(m)
    ensures forall i :: 0 <= i < |args| ==> m[i][i] == args[i]
  {
    var n := |args|;
    m := ZeroMatrix(n, n);
    var i := 0;
    while i < n
      invariant 0 <= i <= n
      invariant IsSquare(m, n)
      invariant forall r, c :: 0 <= r < n && 0 <= c < n ==>
        m[r][c] == (if r == c && r < i then args[r] else 0.0)
    {
      m := SetEntry(m, i, i, args[i]);
      i := i + 1;
    }
  }
}
