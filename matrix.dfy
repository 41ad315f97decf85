/**
 * Dense matrices as sequences of rows, with the few numpy operations the
 * noise-precision node uses: a·bᵀ, elementwise square and product, zeroing the
 * masked cells, and column sums.
 */
module Matrices {
  import opened Seqs

  /** `a` has `rows` rows of `cols` entries each. */
  predicate IsMatrix<T>(a: seq<seq<T>>, rows: nat, cols: nat)
  {
    |a| == rows && forall n :: 0 <= n < rows ==> |a[n]| == cols
  }

  /** The dot product of two vectors of the same length. */
  function Dot(u: seq<real>, v: seq<real>): real
    requires |u| == |v|
  {
    Sum(seq(|u|, k requires 0 <= k < |u| => u[k] * v[k]))
  }

  /** a.dot(b.T): entry (n, d) is the dot product of row n of a with row d of b. */
  function MulT(a: seq<seq<real>>, b: seq<seq<real>>, inner: nat): (r: seq<seq<real>>)
    requires IsMatrix(a, |a|, inner) && IsMatrix(b, |b|, inner)
    ensures IsMatrix(r, |a|, |b|)
    ensures forall n, d :: 0 <= n < |a| && 0 <= d < |b| ==> r[n][d] == Dot(a[n], b[d])
  {
    seq(|a|, n requires 0 <= n < |a| => seq(|b|, d requires 0 <= d < |b| => Dot(a[n], b[d])))
  }

  /** Elementwise square. */
  function Square(a: seq<seq<real>>, cols: nat): (r: seq<seq<real>>)
    requires IsMatrix(a, |a|, cols)
    ensures IsMatrix(r, |a|, cols)
    ensures forall n, j :: 0 <= n < |a| && 0 <= j < cols ==> r[n][j] == a[n][j] * a[n][j]
  {
    seq(|a|, n requires 0 <= n < |a| => seq(cols, j requires 0 <= j < cols => a[n][j] * a[n][j]))
  }

  /** Elementwise product of two matrices of the same shape. */
  function Hadamard(a: seq<seq<real>>, b: seq<seq<real>>, cols: nat): (r: seq<seq<real>>)
    requires IsMatrix(a, |a|, cols) && IsMatrix(b, |a|, cols)
    ensures IsMatrix(r, |a|, cols)
    ensures forall n, j :: 0 <= n < |a| && 0 <= j < cols ==> r[n][j] == a[n][j] * b[n][j]
  {
    seq(|a|, n requires 0 <= n < |a| => seq(cols, j requires 0 <= j < cols => a[n][j] * b[n][j]))
  }

  /** a[mask] = 0, on a copy: the cells where the mask is set become 0. */
  function Masked(a: seq<seq<real>>, mask: seq<seq<bool>>, cols: nat): (r: seq<seq<real>>)
    requires IsMatrix(a, |a|, cols) && IsMatrix(mask, |a|, cols)
    ensures IsMatrix(r, |a|, cols)
    ensures forall n, j :: 0 <= n < |a| && 0 <= j < cols ==> r[n][j] == if mask[n][j] then 0.0 else a[n][j]
  {
    seq(|a|, n requires 0 <= n < |a| => seq(cols, j requires 0 <= j < cols => if mask[n][j] then 0.0 else a[n][j]))
  }

  /** Column j of a. */
  function Column(a: seq<seq<real>>, cols: nat, j: nat): (r: seq<real>)
    requires IsMatrix(a, |a|, cols) && j < cols
    ensures |r| == |a| && forall n :: 0 <= n < |a| ==> r[n] == a[n][j]
  {
    seq(|a|, n requires 0 <= n < |a| => a[n][j])
  }

  /** a.sum(axis=0): the sum of every column. */
  function ColSums(a: seq<seq<real>>, cols: nat): (r: seq<real>)
    requires IsMatrix(a, |a|, cols)
    ensures |r| == cols && forall j :: 0 <= j < cols ==> r[j] == Sum(Column(a, cols, j))
  {
    seq(cols, j requires 0 <= j < cols => Sum(Column(a, cols, j)))
  }
}
