/** `residual_norm`: the size of the residual `A @ x - b` of a claimed
    solution `x` of the linear system `A x = b`, or `None` when the
    arguments are not dense arrays, when `x` or `b` has more than one
    dimension, or when numpy rejects the shapes of the product or of the
    subtraction. The Euclidean norm is modelled by its square. */
module Residual {
  import opened Wrappers
  import opened LinearAlgebra
  import opened Arrays

  /** Two one-dimensional lengths numpy can subtract: equal, or one of them is 1. */
  predicate Broadcastable(m: nat, k: nat) {
    m == k || m == 1 || k == 1
  }

  /** `u - v` for one-dimensional operands under numpy broadcasting: an
      operand of length 1 is stretched to the length of the other. */
  function BroadcastSub(u: Vector, v: Vector): (r: Vector)
    requires Broadcastable(|u|, |v|)
    ensures |r| == if |u| == 1 then |v| else |u|
    ensures forall k :: 0 <= k < |r| ==>
              r[k] == u[if |u| == 1 then 0 else k] - v[if |v| == 1 then 0 else k]
  {
    if |u| == |v| then VecSub(u, v)
    else if |v| == 1 then seq(|u|, k requires 0 <= k < |u| => u[k] - v[0])
    else seq(|v|, k requires 0 <= k < |v| => u[0] - v[k])
  }

  /** The result of `A @ x` for a one-dimensional `x`, as the vectors along
      its last axis, each of length `width`, in row-major order. A
      zero-dimensional result (`A` one-dimensional) is one block of width 1:
      numpy subtracts and measures it exactly like a vector of length 1. */
  datatype MatMulResult = MatMulResult(blocks: seq<Vector>, width: nat)

  /** The length of the last axis of an array with at least one dimension. */
  function LastDim(A: NdArray): nat
    requires 1 <= A.Ndim()
  {
    A.Shape()[A.Ndim() - 1]
  }

  /** `A @ v` for a one-dimensional `v`; `None` where numpy's matmul raises. */
  function MatMul(A: NdArray, v: Vector): (p: Option<MatMulResult>)
    ensures p.Some? <==> 1 <= A.Ndim() && LastDim(A) == |v|
    ensures p.Some? ==> forall k :: 0 <= k < |p.value.blocks| ==> |p.value.blocks[k]| == p.value.width
  {
    match A
    case Scalar(_) => None
    case Vec(a) =>
      if |a| == |v| then Some(MatMulResult([[Dot(a, v)]], 1)) else None
    case Mat(rows, n) =>
      if n == |v| then Some(MatMulResult([MatVec(rows, v)], |rows|)) else None
    case Stack(_, mats, height, n) =>
      if n == |v| then Some(MatMulResult(seq(|mats|, k requires 0 <= k < |mats| => MatVec(mats[k], v)), height))
      else None
  }

  /** The entries of an array of at most one dimension, along its only axis;
      a zero-dimensional `b` broadcasts exactly like a vector of length 1. */
  function LastAxis(b: NdArray): Vector
    requires b.Ndim() <= 1
  {
    if b.Scalar? then [b.value] else b.entries
  }

  /** `A @ x - b` for `x` and `b` of at most one dimension, as the blocks of
      the result along its last axis; `None` where numpy raises. */
  function ResidualBlocks(A: NdArray, x: NdArray, b: NdArray): Option<seq<Vector>>
    requires x.Ndim() <= 1 && b.Ndim() <= 1
  {
    if x.Scalar? then None
    else match MatMul(A, x.entries)
      case None => None
      case Some(p) =>
        var bv := LastAxis(b);
        if Broadcastable(p.width, |bv|) then
          Some(seq(|p.blocks|, k requires 0 <= k < |p.blocks| => BroadcastSub(p.blocks[k], bv)))
        else None
  }

  /** Every entry of every block is zero. */
  predicate AllZero(bs: seq<Vector>) {
    forall k, j :: 0 <= k < |bs| && 0 <= j < |bs[k]| ==> bs[k][j] == 0.0
  }

  /** The squared Euclidean norm of all entries of all blocks, which is the
      squared norm numpy computes of the flattened array. */
  function BlocksSumSquares(bs: seq<Vector>): (r: real)
    ensures 0.0 <= r
    ensures r == 0.0 <==> AllZero(bs)
  {
    if |bs| == 0 then 0.0
    else
      var init := bs[..|bs| - 1];
      assert forall k :: 0 <= k < |init| ==> init[k] == bs[k];
      BlocksSumSquares(init) + SumSquares(bs[|bs| - 1])
  }

  function ResidualNorm(A: Value, x: Value, b: Value): (r: Option<real>)
    ensures !(A.Dense? && x.Dense? && b.Dense?) ==> r == None
    ensures A.Dense? && x.Dense? && b.Dense? && (x.arr.Ndim() > 1 || b.arr.Ndim() > 1) ==> r == None
    ensures A.Dense? && x.Dense? && b.Dense? && x.arr.Scalar? ==> r == None
    ensures (&& A.Dense? && x.Dense? && b.Dense? && x.arr.Vec? && b.arr.Ndim() <= 1
             && (A.arr.Scalar? || LastDim(A.arr) != |x.arr.entries|)) ==> r == None
    ensures r.Some? ==> 0.0 <= r.value
    ensures (&& A.Dense? && x.Dense? && b.Dense? && x.arr.Ndim() <= 1 && b.arr.Ndim() <= 1
             && ResidualBlocks(A.arr, x.arr, b.arr).Some?) ==> r.Some?
    ensures r.Some? ==>
              && A.Dense? && x.Dense? && b.Dense? && x.arr.Ndim() <= 1 && b.arr.Ndim() <= 1
              && ResidualBlocks(A.arr, x.arr, b.arr).Some?
              && (r.value == 0.0 <==> AllZero(ResidualBlocks(A.arr, x.arr, b.arr).value))
  {
    if !(A.Dense? && x.Dense? && b.Dense?) then None
    else if x.arr.Ndim() > 1 || b.arr.Ndim() > 1 then None
    else match ResidualBlocks(A.arr, x.arr, b.arr)
      case None => None
      case Some(rs) => Some(BlocksSumSquares(rs))
  }

  /** The usual case: an m x n matrix, a solution of length n and a
      right-hand side of length m. The result is the squared norm of
      `A x - b`, and it is zero exactly when `x` solves the system. */
  lemma SystemResidual(a: Matrix, n: nat, x: Vector, b: Vector)
    requires IsRect(a, n) && |x| == n && |b| == |a|
    ensures ResidualNorm(Dense(Mat(a, n)), Dense(Vec(x)), Dense(Vec(b))) == Some(SumSquares(VecSub(MatVec(a, x), b)))
    ensures ResidualNorm(Dense(Mat(a, n)), Dense(Vec(x)), Dense(Vec(b))) == Some(0.0) <==> MatVec(a, x) == b
  {
    var d := VecSub(MatVec(a, x), b);
    var blocks := [d];
    assert MatMul(Mat(a, n), x) == Some(MatMulResult([MatVec(a, x)], |a|));
    assert BroadcastSub(MatVec(a, x), b) == d;
    var rs := ResidualBlocks(Mat(a, n), Vec(x), Vec(b));
    assert rs.Some? && |rs.value| == 1 && rs.value[0] == d;
    assert rs.value == blocks;
    assert BlocksSumSquares(blocks) == BlocksSumSquares([]) + SumSquares(d) by {
      assert blocks[..0] == [];
    }
    if MatVec(a, x) != b {
      var i :| 0 <= i < |b| && MatVec(a, x)[i] != b[i];
      assert d[i] != 0.0;
    }
  }

  /** A right-hand side of length 1, or a zero-dimensional one, is stretched
      over every row: the residual is zero exactly when every row of `A x`
      equals that one value. */
  lemma BroadcastResidual(a: Matrix, n: nat, x: Vector, beta: real)
    requires IsRect(a, n) && |x| == n
    ensures ResidualNorm(Dense(Mat(a, n)), Dense(Vec(x)), Dense(Scalar(beta)))
         == ResidualNorm(Dense(Mat(a, n)), Dense(Vec(x)), Dense(Vec([beta])))
    ensures ResidualNorm(Dense(Mat(a, n)), Dense(Vec(x)), Dense(Vec([beta]))).Some?
    ensures ResidualNorm(Dense(Mat(a, n)), Dense(Vec(x)), Dense(Vec([beta]))) == Some(0.0)
        <==> forall i :: 0 <= i < |a| ==> MatVec(a, x)[i] == beta
  {
    var y := MatVec(a, x);
    var rs := ResidualBlocks(Mat(a, n), Vec(x), Vec([beta]));
    assert rs.Some? && |rs.value| == 1;
    if exists i :: 0 <= i < |a| && y[i] != beta {
      var i :| 0 <= i < |a| && y[i] != beta;
      assert rs.value[0][if |y| == 1 then 0 else i] != 0.0;
    }
  }

  /** numpy cannot subtract a right-hand side whose length neither matches
      the number of rows nor is 1. */
  lemma SubtractionShape(a: Matrix, n: nat, x: Vector, b: Vector)
    requires IsRect(a, n) && |x| == n && !Broadcastable(|a|, |b|)
    ensures ResidualNorm(Dense(Mat(a, n)), Dense(Vec(x)), Dense(Vec(b))) == None
  {
  }

  /** With the identity matrix and `x = b` the residual is zero. */
  lemma IdentityResidual(v: Vector)
    ensures ResidualNorm(Dense(Mat(Identity(|v|), |v|)), Dense(Vec(v)), Dense(Vec(v))) == Some(0.0)
  {
    IdentityMatVec(v);
    SystemResidual(Identity(|v|), |v|, v, v);
  }

  /** A two-dimensional `x` is rejected even when its shape would be usable. */
  lemma MatrixSolutionRejected()
    ensures ResidualNorm(Dense(Mat([[1.0, 0.0], [0.0, 1.0]], 2)), Dense(Mat([[1.0], [2.0]], 1)),
                         Dense(Vec([1.0, 2.0]))) == None
  {
  }

  lemma ResidualExample()
    ensures ResidualNorm(Dense(Mat([[1.0, 0.0], [0.0, 1.0]], 2)), Dense(Vec([1.0, 2.0])),
                         Dense(Vec([2.0, 2.0]))) == Some(1.0)
  {
    var a, x, b := [[1.0, 0.0], [0.0, 1.0]], [1.0, 2.0], [2.0, 2.0];
    SystemResidual(a, 2, x, b);
    assert MatVec(a, x) == [1.0, 2.0] by {
      IdentityMatVec(x);
      assert Identity(2)[0] == a[0] && Identity(2)[1] == a[1];
    }
    var d := VecSub(MatVec(a, x), b);
    assert d == [-1.0, 0.0];
    assert d[..1] == [-1.0] && d[..1][..0] == [];
  }
}
