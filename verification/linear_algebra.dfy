/** Real vectors and matrices, and the array operations the two checks are
    built from: elementwise absolute value, diagonal extraction, the diagonal
    matrix of a vector, subtraction, row sums, the matrix-vector product and
    the squared Euclidean norm. Floating point is replaced by `real`. */
module LinearAlgebra {

  type Vector = seq<real>
  type Matrix = seq<seq<real>>

  function Abs(x: real): (r: real)
    ensures 0.0 <= r
    ensures r == x || r == -x
    ensures x == 0.0 <==> r == 0.0
  {
    if x < 0.0 then -x else x
  }

  /** Every row of `a` has `n` entries. */
  predicate IsRect(a: Matrix, n: nat) {
    forall i :: 0 <= i < |a| ==> |a[i]| == n
  }

  /** `a` has as many columns as rows. */
  predicate IsSquare(a: Matrix) {
    IsRect(a, |a|)
  }

  /** The sum of the entries of `v`. */
  function Sum(v: Vector): real {
    if |v| == 0 then 0.0 else Sum(v[..|v| - 1]) + v[|v| - 1]
  }

  function AbsVector(v: Vector): Vector {
    seq(|v|, j requires 0 <= j < |v| => Abs(v[j]))
  }

  /** `np.absolute` of a matrix. */
  function AbsMatrix(a: Matrix): Matrix {
    seq(|a|, i requires 0 <= i < |a| => AbsVector(a[i]))
  }

  /** `a.diagonal()` of a square matrix. */
  function Diagonal(a: Matrix): Vector
    requires IsSquare(a)
  {
    seq(|a|, i requires 0 <= i < |a| => a[i][i])
  }

  /** `np.diag(d)` for a vector `d`: the square matrix with `d` on its diagonal. */
  function DiagMatrix(d: Vector): Matrix {
    seq(|d|, i requires 0 <= i < |d| =>
      seq(|d|, j requires 0 <= j < |d| => if i == j then d[i] else 0.0))
  }

  function VecSub(u: Vector, v: Vector): Vector
    requires |u| == |v|
  {
    seq(|u|, k requires 0 <= k < |u| => u[k] - v[k])
  }

  function MatSub(a: Matrix, b: Matrix): Matrix
    requires |a| == |b|
    requires forall i :: 0 <= i < |a| ==> |a[i]| == |b[i]|
  {
    seq(|a|, i requires 0 <= i < |a| => VecSub(a[i], b[i]))
  }

  /** `np.sum(a, 1)`: the sum of each row. */
  function RowSums(a: Matrix): Vector {
    seq(|a|, i requires 0 <= i < |a| => Sum(a[i]))
  }

  function Dot(u: Vector, v: Vector): real
    requires |u| == |v|
  {
    if |u| == 0 then 0.0
    else Dot(u[..|u| - 1], v[..|v| - 1]) + u[|u| - 1] * v[|v| - 1]
  }

  /** The matrix-vector product `a @ x`. */
  function MatVec(a: Matrix, x: Vector): Vector
    requires IsRect(a, |x|)
  {
    seq(|a|, i requires 0 <= i < |a| => Dot(a[i], x))
  }

  function Identity(n: nat): (e: Matrix)
    ensures |e| == n && IsSquare(e)
  {
    seq(n, i requires 0 <= i < n => seq(n, j requires 0 <= j < n => if i == j then 1.0 else 0.0))
  }

  /** The weight of a row off the diagonal: the sum of |row[j]| over every
      column j other than i. This is the reference definition the dominance
      check is proved against. */
  function OffDiagonalAbsSum(row: Vector, i: nat): real {
    if |row| == 0 then 0.0
    else OffDiagonalAbsSum(row[..|row| - 1], i)
         + (if |row| - 1 == i then 0.0 else Abs(row[|row| - 1]))
  }

  /** The square of the Euclidean norm: it is never negative, and it is zero
      exactly on the zero vector. */
  function SumSquares(v: Vector): (r: real)
    ensures 0.0 <= r
    ensures r == 0.0 <==> forall k :: 0 <= k < |v| ==> v[k] == 0.0
  {
    if |v| == 0 then 0.0
    else
      var init, last := v[..|v| - 1], v[|v| - 1];
      assert forall k :: 0 <= k < |init| ==> init[k] == v[k];
      Square(last);
      SumSquares(init) + last * last
  }

  /** Real multiplication as a function of two arguments: the sign lemmas
      below are stated on it, so that the solver meets a square `x * x` only
      through facts already proved about it. */
  function Times(a: real, b: real): real {
    a * b
  }

  lemma TimesPositive(a: real, b: real)
    requires 0.0 < a && 0.0 < b
    ensures 0.0 < Times(a, b)
  {
  }

  lemma TimesNegative(a: real, b: real)
    requires a < 0.0 && b < 0.0
    ensures 0.0 < Times(a, b)
  {
  }

  /** A real square is never negative, and zero only for zero. */
  lemma Square(x: real)
    ensures 0.0 <= x * x
    ensures x * x == 0.0 <==> x == 0.0
  {
    if x < 0.0 {
      TimesNegative(x, x);
    } else if 0.0 < x {
      TimesPositive(x, x);
    }
  }

  /** Subtracting its own diagonal entry from a row of `|a|` leaves exactly
      the off-diagonal weight: the row sums of `|a| - diag(|a|)` are the
      off-diagonal sums. */
  lemma {:induction false} ZeroedRowSum(row: Vector, w: Vector, i: nat)
    requires |w| == |row|
    requires forall j :: 0 <= j < |w| ==> w[j] == (if j == i then 0.0 else Abs(row[j]))
    ensures Sum(w) == OffDiagonalAbsSum(row, i)
  {
    if |w| > 0 {
      ZeroedRowSum(row[..|row| - 1], w[..|w| - 1], i);
    }
  }

  /** The off-diagonal weight depends only on the magnitudes of the entries. */
  lemma {:induction false} OffDiagonalAbsSumOfMagnitudes(row: Vector, s: Vector, i: nat)
    requires |s| == |row|
    requires forall j :: 0 <= j < |row| ==> Abs(s[j]) == Abs(row[j])
    ensures OffDiagonalAbsSum(s, i) == OffDiagonalAbsSum(row, i)
  {
    if |row| > 0 {
      OffDiagonalAbsSumOfMagnitudes(row[..|row| - 1], s[..|s| - 1], i);
    }
  }

  /** A dot product with the i-th unit vector picks out entry i. */
  lemma {:induction false} DotUnit(e: Vector, v: Vector, i: nat)
    requires |e| == |v|
    requires forall j :: 0 <= j < |e| ==> e[j] == (if j == i then 1.0 else 0.0)
    ensures Dot(e, v) == if i < |v| then v[i] else 0.0
  {
    if |e| > 0 {
      DotUnit(e[..|e| - 1], v[..|v| - 1], i);
    }
  }

  /** The identity matrix maps every vector to itself. */
  lemma IdentityMatVec(v: Vector)
    ensures MatVec(Identity(|v|), v) == v
  {
    var e := Identity(|v|);
    forall i | 0 <= i < |v|
      ensures MatVec(e, v)[i] == v[i]
    {
      DotUnit(e[i], v, i);
    }
  }
}
