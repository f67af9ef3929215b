# Diagonal dominance and residual norm, modelled in Dafny

The system is a pair of numerical helpers in `main.py`:

- `is_diagonally_dominant(A)` accepts a dense numpy array or a scipy
  `csc_array` (compressed sparse column storage). It returns `None` unless the
  input is two-dimensional and square. Otherwise it returns whether every row
  is strictly diagonally dominant: the magnitudes off the diagonal must sum
  to strictly less than the magnitude of the diagonal entry. Dense and sparse
  inputs run through the same steps: `np.absolute`, `.diagonal()`,
  subtracting `np.diag(dA)`, and row sums.
- `residual_norm(A, x, b)` accepts only dense arrays. It returns `None` when
  `x` or `b` has more than one dimension, and when `A @ x - b` raises for
  shape reasons. Otherwise it returns the Euclidean norm of the residual
  `A @ x - b`.

The model works over mathematical reals. The `None` result becomes
`Wrappers.Option`. Python's "any value" argument becomes `Arrays.Value`, a
closed variant with three cases:

- `Dense`: an `ndarray`, by number of dimensions (`Scalar`, `Vec`, `Mat`, or
  `Stack` for three or more).
- `Sparse`: a canonical `csc_array`.
- `Other`: any other value, such as a list, a number, a `csc_matrix` or
  another sparse format.

Two subset types carry the shape invariants. `NdArray` holds rectangular
rows, which numpy guarantees for every array it builds. `CscArray`
restricts the model to well-formed, canonical storage. Its column pointers
never decrease, its row indices are below the number of rows, and its row
indices strictly increase within each column. scipy's default construction
checks none of these three properties; see "Left out".

The dominance check is proved equal to the textbook definition
`StrictlyRowDominant`, whose off-diagonal weight is written independently as
`OffDiagonalAbsSum`. This holds for dense input and for sparse input through
the matrix it stands for. The residual is modelled for every shape the code
lets through. This includes cases the docstring does not mention: `A` of one
dimension or of three or more, and a zero-dimensional `b`, which numpy
broadcasts. A zero-dimensional `x` is rejected, because numpy's matmul raises
on it. The code itself is followed for these cases.

## Model

| member | source | states |
|---|---|---|
| `Dominance.IsDiagonallyDominant` | main.py:14-40 | A value that is neither a dense array nor a `csc_array` gives `None`. So does a dense array that is not 2-D, or a 2-D or sparse input that is not square. A square input gives `Some(b)`, where `b` holds exactly when the matrix it stands for is strictly diagonally dominant by rows. |
| `Dominance.DenseCheckMeaning` | main.py:34-38 | The dense pipeline (`np.absolute`, `.diagonal()`, `- np.diag(dA)`, row sums, `np.all(sums < dA)`) is true exactly when, in every row, the off-diagonal magnitudes sum to strictly less than the diagonal magnitude. |
| `Dominance.SparseCheckAgrees` | main.py:34-36 | The sparse pipeline gives the dense pipeline's answer on the array's dense equivalent. In the sparse pipeline, magnitudes and diagonal are taken in compressed storage and the subtraction produces a dense matrix. |
| `Dominance.DenseSparseAgreement` | main.py:26-40 | A `csc_array` and the dense array with the same entries get the same result. |
| `Dominance.SignInvariance` | main.py:34-36 | Negating any entries of a dense matrix leaves the result unchanged, including whether it is `None`. |
| `Dominance.TieIsNotDominant` | main.py:38-40 | The comparison is strict. A row whose off-diagonal sum equals its diagonal magnitude makes the result `Some(false)`. |
| `Dominance.EmptyIsDominant` | main.py:38-39 | The 0 x 0 matrix is dominant, because `np.all` of an empty array is true. |
| `Dominance.DominantExample` | main.py:34-39 | `[[3,-1],[-1,3]]` is dominant. |
| `Dominance.NotDominantExample` | main.py:38-40 | `[[1,2],[3,1]]` is not dominant, because row 0 has 2 against 1. |
| `Dominance.NonSquareExample` | main.py:30-32 | A 2 x 3 matrix gives `None`. |
| `Arrays.SparseAbsToDense` | main.py:34 | Taking magnitudes of the stored entries and then densifying gives the magnitudes of the dense matrix. |
| `Arrays.SparseDiagonalToDense` | main.py:35 | The diagonal read from compressed storage is the diagonal of the dense matrix. |
| `Arrays.FindAbs` | main.py:34 | Looking up an entry among stored values whose magnitudes were taken gives the magnitude of the original entry, or zero when nothing is stored. |
| `Arrays.ToDense` | main.py:26 | The dense matrix a `csc_array` stands for has the array's number of rows and columns. |
| `Arrays.ToDenseEntry` | main.py:26 | Entry (i, j) of that dense matrix is the value stored for row i in column j, and zero when column j stores nothing for row i. |
| `Arrays.FindStored` | main.py:26 | Within a column's sorted storage, looking up a stored row returns the value stored at its position. |
| `Arrays.FindAbsent` | main.py:26 | Looking up a row stored nowhere in the range returns zero. |
| `Arrays.SortedRowsLess` | main.py:26 | In canonical storage an earlier position of a column holds a smaller row index, so no row is stored twice. |
| `LinearAlgebra.ZeroedRowSum` | main.py:36 | The row sums of `abs(A) - diag(diagonal(abs(A)))` are the sums of the off-diagonal magnitudes. |
| `LinearAlgebra.OffDiagonalAbsSumOfMagnitudes` | main.py:34-36 | The off-diagonal weight of a row depends only on the magnitudes of its entries. |
| `LinearAlgebra.SumSquares` | main.py:67 | The squared Euclidean norm of a vector is never negative. It is zero exactly when every entry is zero. |
| `LinearAlgebra.IdentityMatVec` | main.py:62 | The identity matrix times `v` is `v`. |
| `LinearAlgebra.DotUnit` | main.py:62 | The dot product with the i-th unit vector is entry i. |
| `Residual.ResidualNorm` | main.py:42-67 | Any argument that is not a dense array gives `None`. So does an `x` or `b` with more than one dimension, a zero-dimensional `x`, or an `A` whose last dimension differs from the length of `x`. A result is never negative. A result exists exactly when `x` and `b` have at most one dimension and `A @ x - b` exists, and it is zero exactly when every entry of that residual is zero. |
| `Residual.MatMul` | main.py:62-64 | `A @ x` for a 1-D `x` exists exactly when `A` has at least one dimension and its last dimension equals the length of `x`. Every block of the product has the product's width. |
| `Residual.BroadcastSub` | main.py:62 | Subtraction under numpy broadcasting has the length of the longer operand when one operand has length 1, and the common length otherwise. Its entry k is `u[k] - v[k]`, with a length-1 operand read at index 0. |
| `Residual.BlocksSumSquares` | main.py:67 | The squared norm of a flattened array is never negative. It is zero exactly when every entry is zero. |
| `Residual.SystemResidual` | main.py:62-67 | For an m x n `A`, an `x` of length n and a `b` of length m, the result is the squared norm of `A x - b`. It is zero exactly when `A x = b`. |
| `Residual.BroadcastResidual` | main.py:62-67 | A right-hand side of length 1 and a zero-dimensional one give the same result, which always exists. It is zero exactly when every entry of `A x` equals that value. |
| `Residual.SubtractionShape` | main.py:62-64 | For an `A` with more than one row, a `b` whose length is neither the number of rows nor 1 gives `None`. |
| `Residual.IdentityResidual` | main.py:62-67 | The identity matrix with `x = b = v` gives residual 0. |
| `Residual.MatrixSolutionRejected` | main.py:59-60 | A 2-D `x` gives `None` even when its shape would multiply. |
| `Residual.ResidualExample` | main.py:62-67 | The identity matrix with `x = [1,2]` and `b = [2,2]` gives 1, which is both the norm and its square. |

## Left out

- Residual.ResidualNorm: returns the square of the Euclidean norm. The square root inside `np.linalg.norm` is not modelled. The square is zero and nonnegative exactly when the norm is.
- Floating point: every entry is a real number. Rounding, NaN and infinities are not modelled.
- Entry types other than real numbers: complex, boolean and object arrays are not modelled.
- Fixed-width integer arrays are not modelled, and neither is their overflow. Every entry is taken as an exact real. numpy computes `np.absolute`, `np.sum`, `@` and `-` on `int` and `uint` arrays with wrap-around. So, for example, a `uint8` residual `1 - 2` becomes 255, and `np.absolute` of the smallest `int64` stays negative.
- Malformed or non-canonical sparse storage is not modelled. By default scipy builds a `csc_array` from `(data, indices, indptr)` without checking three things: that the column pointers never decrease, that every row index is below the number of rows, and that row indices are sorted and unrepeated within a column. For unsorted or repeated indices, scipy sums the duplicates before taking magnitudes. The model admits only storage that has all three properties.
- The `np.matrix` subclass of `ndarray` is not modelled. Its `.diagonal()` stays 2-D, and its products stay 2-D.
- Exceptions other than shape errors, such as running out of memory inside `A @ x - b`, are not modelled. Only shape errors are caught into `None`.
- The internals of numpy and scipy are not modelled: storage, `np.absolute`, `.diagonal()`, `np.sum`, `@` and `np.linalg.norm` are given by their mathematical meaning.
- The header comment and the imports carry no behaviour.
