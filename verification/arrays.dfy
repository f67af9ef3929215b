/** The kinds of value the two checks inspect with `isinstance`: a dense
    numpy `ndarray` of real entries, a scipy `csc_array` (compressed sparse
    column storage), or anything else. */
module Arrays {
  import opened LinearAlgebra

  /** The number of entries of an array whose leading dimensions are `dims`. */
  function Count(dims: seq<nat>): nat {
    if |dims| == 0 then 1 else dims[0] * Count(dims[1..])
  }

  /** A dense `ndarray`, by number of dimensions. A stack of three or more
      dimensions holds one `height` x `width` matrix for every index of its
      leading dimensions `lead`, in row-major order. */
  datatype Array =
    | Scalar(value: real)
    | Vec(entries: Vector)
    | Mat(rows: Matrix, cols: nat)
    | Stack(lead: seq<nat>, mats: seq<Matrix>, height: nat, width: nat)
  {
    /** numpy arrays are rectangular: every row of a matrix has the same length. */
    predicate Valid() {
      match this
      case Scalar(_) => true
      case Vec(_) => true
      case Mat(rows, cols) => IsRect(rows, cols)
      case Stack(lead, mats, height, width) =>
        && 1 <= |lead|
        && |mats| == Count(lead)
        && forall k :: 0 <= k < |mats| ==> |mats[k]| == height && IsRect(mats[k], width)
    }

    /** `a.shape`. */
    function Shape(): seq<nat> {
      match this
      case Scalar(_) => []
      case Vec(v) => [|v|]
      case Mat(rows, cols) => [|rows|, cols]
      case Stack(lead, _, height, width) => lead + [height, width]
    }

    /** `a.ndim`, which is `len(a.shape)`. */
    function Ndim(): (d: nat)
      ensures d == |Shape()|
    {
      match this
      case Scalar(_) => 0
      case Vec(_) => 1
      case Mat(_, _) => 2
      case Stack(lead, _, _, _) => |lead| + 2
    }
  }

  type NdArray = a: Array | a.Valid() witness Scalar(0.0)

  /** A `csc_array` with `nrows` rows and `ncols` columns in canonical
      compressed sparse column storage: the stored entries of column j sit at
      positions indptr[j] .. indptr[j+1] - 1 of `indices` (their rows, strictly
      increasing, so no entry is stored twice) and `data` (their values). */
  datatype Csc = Csc(nrows: nat, ncols: nat, indptr: seq<nat>, indices: seq<nat>, data: Vector) {
    predicate Valid() {
      && |indptr| == ncols + 1
      && indptr[0] == 0
      && indptr[ncols] == |indices| == |data|
      && (forall j :: 0 <= j < ncols ==> indptr[j] <= indptr[j + 1])
      && (forall j :: 0 <= j <= ncols ==> indptr[j] <= |indices|)
      && (forall p :: 0 <= p < |indices| ==> indices[p] < nrows)
      && (forall j :: 0 <= j < ncols ==> SortedRows(indices, indptr[j], indptr[j + 1]))
    }
  }

  type CscArray = c: Csc | c.Valid() witness Csc(0, 0, [0], [], [])

  /** The value stored for row i among positions lo .. hi - 1, or zero when
      none of them holds row i. */
  function Find(indices: seq<nat>, data: Vector, i: nat, lo: nat, hi: nat): real
    requires lo <= hi <= |indices| == |data|
    decreases hi - lo
  {
    if lo == hi then 0.0
    else if indices[lo] == i then data[lo]
    else Find(indices, data, i, lo + 1, hi)
  }

  /** Entry (i, j) of a sparse array: implicit entries are zero. */
  function Entry(c: CscArray, i: nat, j: nat): real
    requires j < c.ncols
  {
    Find(c.indices, c.data, i, c.indptr[j], c.indptr[j + 1])
  }

  /** `c.toarray()`: the dense matrix a sparse array stands for. */
  function ToDense(c: CscArray): (d: Matrix)
    ensures |d| == c.nrows && IsRect(d, c.ncols)
  {
    seq(c.nrows, i requires 0 <= i < c.nrows =>
      seq(c.ncols, j requires 0 <= j < c.ncols => Entry(c, i, j)))
  }

  /** `np.absolute` of a sparse array: the absolute value of every stored
      entry, with the storage layout unchanged. */
  function SparseAbs(c: CscArray): (r: CscArray)
    ensures r.nrows == c.nrows && r.ncols == c.ncols
  {
    c.(data := AbsVector(c.data))
  }

  /** `c.diagonal()` of a square sparse array, read from its storage. */
  function SparseDiagonal(c: CscArray): Vector
    requires c.nrows == c.ncols
  {
    seq(c.nrows, i requires 0 <= i < c.nrows => Entry(c, i, i))
  }

  /** Row indices strictly increase over positions lo .. hi - 1. */
  predicate SortedRows(indices: seq<nat>, lo: nat, hi: nat)
    requires lo <= hi <= |indices|
  {
    forall q :: lo <= q && q + 1 < hi ==> indices[q] < indices[q + 1]
  }

  /** In a sorted range, an earlier position holds a smaller row index. */
  lemma {:induction false} SortedRowsLess(indices: seq<nat>, lo: nat, hi: nat, q: nat, q': nat)
    requires lo <= hi <= |indices| && SortedRows(indices, lo, hi)
    requires lo <= q < q' < hi
    ensures indices[q] < indices[q']
    decreases q' - q
  {
    if q + 1 < q' {
      SortedRowsLess(indices, lo, hi, q + 1, q');
    }
  }

  /** When row i is stored at position p of a sorted range, the lookup
      returns the value stored there. */
  lemma {:induction false} FindStored(indices: seq<nat>, data: Vector, i: nat, lo: nat, hi: nat, p: nat)
    requires lo <= p < hi <= |indices| == |data|
    requires SortedRows(indices, lo, hi) && indices[p] == i
    ensures Find(indices, data, i, lo, hi) == data[p]
    decreases hi - lo
  {
    if lo < p {
      SortedRowsLess(indices, lo, hi, lo, p);
      FindStored(indices, data, i, lo + 1, hi, p);
    }
  }

  /** When row i is stored nowhere in the range, the lookup returns zero. */
  lemma {:induction false} FindAbsent(indices: seq<nat>, data: Vector, i: nat, lo: nat, hi: nat)
    requires lo <= hi <= |indices| == |data|
    requires forall q :: lo <= q < hi ==> indices[q] != i
    ensures Find(indices, data, i, lo, hi) == 0.0
    decreases hi - lo
  {
    if lo < hi {
      FindAbsent(indices, data, i, lo + 1, hi);
    }
  }

  /** Entry (i, j) of the dense equivalent is the value stored for row i in
      column j, and zero when column j stores nothing for row i. */
  lemma ToDenseEntry(c: CscArray, i: nat, j: nat)
    requires i < c.nrows && j < c.ncols
    ensures forall p :: c.indptr[j] <= p < c.indptr[j + 1] && c.indices[p] == i ==>
              ToDense(c)[i][j] == c.data[p]
    ensures (forall p :: c.indptr[j] <= p < c.indptr[j + 1] ==> c.indices[p] != i) ==>
              ToDense(c)[i][j] == 0.0
  {
    var lo, hi := c.indptr[j], c.indptr[j + 1];
    forall p | lo <= p < hi && c.indices[p] == i
      ensures ToDense(c)[i][j] == c.data[p]
    {
      FindStored(c.indices, c.data, i, lo, hi, p);
    }
    if forall p :: lo <= p < hi ==> c.indices[p] != i {
      FindAbsent(c.indices, c.data, i, lo, hi);
    }
  }

  /** Looking up a row among stored values whose magnitudes were taken gives
      the magnitude of the original lookup. */
  lemma {:induction false} FindAbs(indices: seq<nat>, data: Vector, i: nat, lo: nat, hi: nat)
    requires lo <= hi <= |indices| == |data|
    ensures Find(indices, AbsVector(data), i, lo, hi) == Abs(Find(indices, data, i, lo, hi))
    decreases hi - lo
  {
    if lo < hi && indices[lo] != i {
      FindAbs(indices, data, i, lo + 1, hi);
    }
  }

  /** Taking magnitudes in sparse storage and then densifying is the same as
      taking magnitudes of the dense matrix. */
  lemma SparseAbsToDense(c: CscArray)
    ensures ToDense(SparseAbs(c)) == AbsMatrix(ToDense(c))
  {
    var l, r := ToDense(SparseAbs(c)), AbsMatrix(ToDense(c));
    forall i | 0 <= i < c.nrows
      ensures l[i] == r[i]
    {
      forall j | 0 <= j < c.ncols
        ensures l[i][j] == r[i][j]
      {
        FindAbs(c.indices, c.data, i, c.indptr[j], c.indptr[j + 1]);
      }
    }
  }

  /** The diagonal read from sparse storage is the diagonal of the dense matrix. */
  lemma SparseDiagonalToDense(c: CscArray)
    requires c.nrows == c.ncols
    ensures SparseDiagonal(c) == Diagonal(ToDense(c))
  {
  }

  /** What `isinstance` distinguishes: a dense array, a compressed sparse
      column array, or any other Python value (a list, a number, `None`,
      another sparse format, ...). */
  datatype Value = Dense(arr: NdArray) | Sparse(csc: CscArray) | Other
}
