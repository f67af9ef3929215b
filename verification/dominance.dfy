/** `is_diagonally_dominant`: whether a square matrix, dense or sparse, is
    strictly diagonally dominant by rows; `None` for anything that is not a
    square two-dimensional array. */
module Dominance {
  import opened Wrappers
  import opened LinearAlgebra
  import opened Arrays

  /** Strict diagonal dominance by rows: in every row the off-diagonal
      magnitudes sum to strictly less than the magnitude of the diagonal entry. */
  predicate StrictlyRowDominant(a: Matrix)
    requires IsSquare(a)
  {
    forall i :: 0 <= i < |a| ==> OffDiagonalAbsSum(a[i], i) < Abs(a[i][i])
  }

  /** `np.all(u < v)`; true of two empty vectors. */
  predicate AllLess(u: Vector, v: Vector)
    requires |u| == |v|
  {
    forall k :: 0 <= k < |u| ==> u[k] < v[k]
  }

  /** The steps both representations share once they have the magnitudes
      `bA` (as a dense matrix) and their diagonal `dA`: subtract `np.diag(dA)`,
      sum each row, and compare every sum with the diagonal entry. */
  function Compare(bA: Matrix, dA: Vector): bool
    requires IsSquare(bA) && |dA| == |bA|
  {
    var sums := RowSums(MatSub(bA, DiagMatrix(dA)));
    AllLess(sums, dA)
  }

  /** The check on a dense square matrix. */
  function DenseCheck(a: Matrix): bool
    requires IsSquare(a)
  {
    var bA := AbsMatrix(a);
    Compare(bA, Diagonal(bA))
  }

  /** The check on a square sparse array: magnitudes and diagonal are taken
      in sparse storage; subtracting the dense `np.diag(dA)` yields a dense
      matrix. */
  function SparseCheck(c: CscArray): bool
    requires c.nrows == c.ncols
  {
    var bA := SparseAbs(c);
    Compare(ToDense(bA), SparseDiagonal(bA))
  }

  /** The dense pipeline decides exactly strict row dominance. */
  lemma DenseCheckMeaning(a: Matrix)
    requires IsSquare(a)
    ensures DenseCheck(a) <==> StrictlyRowDominant(a)
  {
    var bA := AbsMatrix(a);
    var dA := Diagonal(bA);
    var diff := MatSub(bA, DiagMatrix(dA));
    forall i | 0 <= i < |a|
      ensures RowSums(diff)[i] == OffDiagonalAbsSum(a[i], i)
    {
      ZeroedRowSum(a[i], diff[i], i);
    }
  }

  /** The sparse pipeline gives the same answer as the dense pipeline on the
      matrix the sparse array stands for. */
  lemma SparseCheckAgrees(c: CscArray)
    requires c.nrows == c.ncols
    ensures SparseCheck(c) == DenseCheck(ToDense(c))
  {
    var bA := SparseAbs(c);
    SparseAbsToDense(c);
    SparseDiagonalToDense(bA);
  }

  function IsDiagonallyDominant(A: Value): (r: Option<bool>)
    ensures A.Other? ==> r == None
    ensures A.Dense? && A.arr.Ndim() != 2 ==> r == None
    ensures A.Dense? && A.arr.Mat? && |A.arr.rows| != A.arr.cols ==> r == None
    ensures A.Sparse? && A.csc.nrows != A.csc.ncols ==> r == None
    ensures A.Dense? && A.arr.Mat? && |A.arr.rows| == A.arr.cols ==>
              r == Some(StrictlyRowDominant(A.arr.rows))
    ensures A.Sparse? && A.csc.nrows == A.csc.ncols ==>
              r == Some(StrictlyRowDominant(ToDense(A.csc)))
  {
    match A
    case Other => None
    case Dense(a) =>
      if a.Ndim() != 2 then None
      else if |a.rows| != a.cols then None
      else
        DenseCheckMeaning(a.rows);
        Some(DenseCheck(a.rows))
    case Sparse(c) =>
      if c.nrows != c.ncols then None
      else
        SparseCheckAgrees(c);
        DenseCheckMeaning(ToDense(c));
        Some(SparseCheck(c))
  }

  /** A sparse array and its dense equivalent get the same answer. */
  lemma DenseSparseAgreement(c: CscArray)
    ensures IsDiagonallyDominant(Sparse(c)) == IsDiagonallyDominant(Dense(Mat(ToDense(c), c.ncols)))
  {
  }

  /** Only magnitudes matter: flipping the sign of any entries leaves the
      answer unchanged, including whether the input is rejected. */
  lemma SignInvariance(a: Matrix, s: Matrix, n: nat)
    requires IsRect(a, n) && IsRect(s, n) && |s| == |a|
    requires forall i, j :: 0 <= i < |a| && 0 <= j < n ==> s[i][j] == a[i][j] || s[i][j] == -a[i][j]
    ensures IsDiagonallyDominant(Dense(Mat(s, n))) == IsDiagonallyDominant(Dense(Mat(a, n)))
  {
    if |a| == n {
      forall i | 0 <= i < |a|
        ensures OffDiagonalAbsSum(s[i], i) == OffDiagonalAbsSum(a[i], i)
      {
        OffDiagonalAbsSumOfMagnitudes(a[i], s[i], i);
      }
    }
  }

  /** The comparison is strict: a row whose off-diagonal weight equals its
      diagonal magnitude makes the matrix not dominant. */
  lemma TieIsNotDominant(a: Matrix, i: nat)
    requires IsSquare(a) && i < |a|
    requires OffDiagonalAbsSum(a[i], i) == Abs(a[i][i])
    ensures IsDiagonallyDominant(Dense(Mat(a, |a|))) == Some(false)
  {
  }

  /** A 0 x 0 matrix is dominant: `np.all` of nothing is true. */
  lemma EmptyIsDominant()
    ensures IsDiagonallyDominant(Dense(Mat([], 0))) == Some(true)
  {
  }

  lemma DominantExample()
    ensures IsDiagonallyDominant(Dense(Mat([[3.0, -1.0], [-1.0, 3.0]], 2))) == Some(true)
  {
    var a := [[3.0, -1.0], [-1.0, 3.0]];
    assert a[0][..1] == [3.0] && a[1][..1] == [-1.0];
    assert OffDiagonalAbsSum(a[0], 0) == 1.0;
    assert OffDiagonalAbsSum(a[1], 1) == 1.0;
  }

  lemma NotDominantExample()
    ensures IsDiagonallyDominant(Dense(Mat([[1.0, 2.0], [3.0, 1.0]], 2))) == Some(false)
  {
    var a := [[1.0, 2.0], [3.0, 1.0]];
    assert a[0][..1] == [1.0];
    assert OffDiagonalAbsSum(a[0], 0) == 2.0;
  }

  lemma NonSquareExample()
    ensures IsDiagonallyDominant(Dense(Mat([[1.0, 2.0, 3.0], [4.0, 5.0, 6.0]], 3))) == None
  {
  }
}
