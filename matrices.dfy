/** Square integer matrices as values, the sums every kernel of mem-speed.c is
    measured against, and the row-offset arithmetic of the flat layout. */
module Matrices {

  datatype Option<T> = None | Some(value: T)

  /** A matrix as a value: m[r][c] is row r, column c. */
  type Mat = seq<seq<int>>

  /** Every row is as long as there are rows. */
  ghost predicate IsSquare(m: Mat) {
    forall r :: 0 <= r < |m| ==> |m[r]| == |m|
  }

  /** Two square matrices of the same side length. */
  ghost predicate SameShape(a: Mat, b: Mat) {
    IsSquare(a) && IsSquare(b) && |a| == |b|
  }

  /** The sum of a[i][k] * b[k][j] over lo <= k < hi, accumulated in increasing k
      (the order in which every kernel adds into one result cell). */
  ghost function DotRange(a: Mat, b: Mat, i: nat, j: nat, lo: nat, hi: nat): int
    requires SameShape(a, b) && i < |a| && j < |a| && lo <= hi <= |a|
    decreases hi - lo
  {
    if lo == hi then 0 else DotRange(a, b, i, j, lo, hi - 1) + Term(a, b, i, j, hi - 1)
  }

  /** The k-th product added into cell (i, j). */
  ghost function Term(a: Mat, b: Mat, i: nat, j: nat, k: nat): int
    requires SameShape(a, b) && i < |a| && j < |a| && k < |a|
  {
    a[i][k] * b[k][j]
  }

  /** Cell (i, j) of the product a * b. */
  ghost function Dot(a: Mat, b: Mat, i: nat, j: nat): int
    requires SameShape(a, b) && i < |a| && j < |a|
  {
    DotRange(a, b, i, j, 0, |a|)
  }

  /** The product a * b as a matrix. */
  ghost function Product(a: Mat, b: Mat): (p: Mat)
    requires SameShape(a, b)
    ensures IsSquare(p) && |p| == |a|
    ensures forall r, c :: 0 <= r < |a| && 0 <= c < |a| ==> p[r][c] == Dot(a, b, r, c)
  {
    seq(|a|, r requires 0 <= r < |a| => seq(|a|, c requires 0 <= c < |a| => Dot(a, b, r, c)))
  }

  /** The matrix with m[c][r] at row r, column c. */
  ghost function Transpose(m: Mat): (t: Mat)
    requires IsSquare(m)
    ensures IsSquare(t) && |t| == |m|
    ensures forall r, c :: 0 <= r < |m| && 0 <= c < |m| ==> t[r][c] == m[c][r]
  {
    seq(|m|, r requires 0 <= r < |m| => seq(|m|, c requires 0 <= c < |m| => m[c][r]))
  }

  /** Transposing twice gives the matrix back. */
  lemma TransposeTwice(m: Mat)
    requires IsSquare(m)
    ensures Transpose(Transpose(m)) == m
  {
    var t := Transpose(Transpose(m));
    forall r | 0 <= r < |m|
      ensures t[r] == m[r]
    {
    }
  }

  /** The n x n identity matrix. */
  ghost function Identity(n: nat): (m: Mat)
    ensures IsSquare(m) && |m| == n
    ensures forall r, c :: 0 <= r < n && 0 <= c < n ==> m[r][c] == (if r == c then 1 else 0)
  {
    seq(n, r requires 0 <= r < n => seq(n, c requires 0 <= c < n => if r == c then 1 else 0))
  }

  /** A jagged sz x sz matrix, as the kernels receive it. */
  predicate SquareArray(m: array2<int>, sz: nat) {
    m.Length0 == sz && m.Length1 == sz
  }

  /** The value a two-dimensional array holds. */
  function Cells(m: array2<int>): (cells: Mat)
    reads m
    ensures |cells| == m.Length0
    ensures forall r :: 0 <= r < m.Length0 ==> |cells[r]| == m.Length1
    ensures forall r, c :: 0 <= r < m.Length0 && 0 <= c < m.Length1 ==> cells[r][c] == m[r, c]
  {
    seq(m.Length0, r requires 0 <= r < m.Length0 reads m =>
      seq(m.Length1, c requires 0 <= c < m.Length1 reads m => m[r, c]))
  }

  // ---------------------------------------------------------------------------
  // The flat layout: one buffer of n * n cells in which row r starts at r * n.

  /** Offset of the first cell of row r (the row pointer data + r * n); the n
      cells of every row of an n x n matrix fit in the n * n buffer. */
  function RowBase(r: nat, n: nat): (base: nat)
    ensures r < n ==> base + n <= n * n
  {
    if r < n then MulMonotone(r + 1, n, n); r * n else r * n
  }

  /** Offset of cell (r, c) in the flat buffer (the pointer data + r * n + c);
      every cell of an n x n matrix lies inside the n * n buffer. */
  function Offset(r: nat, c: nat, n: nat): (off: nat)
    ensures r < n && c < n ==> off < n * n
  {
    RowBase(r, n) + c
  }

  /** Row r + 1 begins exactly one row stride after row r. */
  lemma RowStride(r: nat, n: nat)
    ensures RowBase(r + 1, n) == RowBase(r, n) + n
  {
  }

  /** A running row pointer advanced t times by the stride n points at row r + t. */
  lemma {:induction false} RowPointerAdvance(r: nat, c: nat, n: nat, t: nat)
    ensures Offset(r, c, n) + t * n == Offset(r + t, c, n)
  {
    if t > 0 {
      RowPointerAdvance(r, c, n, t - 1);
      RowStride(r + t - 1, n);
    }
  }

  /** Every cell of an earlier row lies before every cell of a later row. */
  lemma EarlierRowFirst(r: nat, c: nat, r0: nat, c0: nat, n: nat)
    requires r < r0 && c < n
    ensures Offset(r, c, n) < Offset(r0, c0, n)
  {
    calc {
      Offset(r, c, n);
    <
      r * n + n;
    ==
      (r + 1) * n;
    <= { MulMonotone(r + 1, r0, n); }
      r0 * n;
    <=
      Offset(r0, c0, n);
    }
  }

  /** Two distinct cells of an n x n matrix never share an offset. */
  lemma OffsetInjective(r0: nat, c0: nat, n: nat)
    requires r0 < n && c0 < n
    ensures forall r, c :: 0 <= r < n && 0 <= c < n && Offset(r, c, n) == Offset(r0, c0, n) ==> r == r0 && c == c0
  {
    forall r, c | 0 <= r < n && 0 <= c < n && Offset(r, c, n) == Offset(r0, c0, n)
      ensures r == r0 && c == c0
    {
      if r < r0 {
        EarlierRowFirst(r, c, r0, c0, n);
      } else if r0 < r {
        EarlierRowFirst(r0, c0, r, c, n);
      }
    }
  }

  lemma MulMonotone(a: nat, b: nat, n: nat)
    requires a <= b
    ensures a * n <= b * n
  {
    assert b * n - a * n == (b - a) * n;
  }

  /** The value a flat buffer of n * n cells holds, read through its row offsets. */
  function FlatCells(a: seq<int>, n: nat): (cells: Mat)
    requires |a| == n * n
    ensures |cells| == n && IsSquare(cells)
    ensures forall r, c :: 0 <= r < n && 0 <= c < n ==> Offset(r, c, n) < |a| && cells[r][c] == a[Offset(r, c, n)]
  {
    seq(n, r requires 0 <= r < n => seq(n, c requires 0 <= c < n => a[Offset(r, c, n)]))
  }

  // ---------------------------------------------------------------------------
  // Properties of the product.

  /** Splitting the k range in two splits the sum. */
  lemma {:induction false} DotRangeSplit(a: Mat, b: Mat, i: nat, j: nat, lo: nat, mid: nat, hi: nat)
    requires SameShape(a, b) && i < |a| && j < |a| && lo <= mid <= hi <= |a|
    ensures DotRange(a, b, i, j, lo, mid) + DotRange(a, b, i, j, mid, hi) == DotRange(a, b, i, j, lo, hi)
    decreases hi - mid
  {
    if mid < hi {
      DotRangeSplit(a, b, i, j, lo, mid, hi - 1);
    }
  }

  /** Extending the k range of row i by one adds the next product to every cell
      of the row. */
  lemma DotRangeNext(a: Mat, b: Mat, i: nat, lo: nat, hi: nat)
    requires SameShape(a, b) && i < |a| && lo <= hi < |a|
    ensures forall j :: 0 <= j < |a| ==> DotRange(a, b, i, j, lo, hi + 1) == DotRange(a, b, i, j, lo, hi) + Term(a, b, i, j, hi)
  {
  }

  /** Two matrices that agree on every cell are equal. */
  lemma SameCells(a: Mat, b: Mat)
    requires SameShape(a, b)
    requires forall r, c :: 0 <= r < |a| && 0 <= c < |a| ==> a[r][c] == b[r][c]
    ensures a == b
  {
    forall r | 0 <= r < |a|
      ensures a[r] == b[r]
    {
    }
  }

  /** A 1 x 1 product is the product of the two cells. */
  lemma DotSingleCell(a: Mat, b: Mat)
    requires SameShape(a, b) && |a| == 1
    ensures Dot(a, b, 0, 0) == a[0][0] * b[0][0]
  {
  }

  /** Multiplying by the identity on the left gives the other operand back. */
  lemma IdentityLeft(m: Mat, i: nat, j: nat)
    requires IsSquare(m) && i < |m| && j < |m|
    ensures Dot(Identity(|m|), m, i, j) == m[i][j]
  {
    IdentityPrefix(m, i, j, |m|);
  }

  lemma {:induction false} IdentityPrefix(m: Mat, i: nat, j: nat, hi: nat)
    requires IsSquare(m) && i < |m| && j < |m| && hi <= |m|
    ensures DotRange(Identity(|m|), m, i, j, 0, hi) == if i < hi then m[i][j] else 0
  {
    if hi > 0 {
      IdentityPrefix(m, i, j, hi - 1);
    }
  }

  /** The worked 2 x 2 scenario: [[1,2],[3,4]] * [[5,6],[7,8]] == [[19,22],[43,50]]. */
  lemma TwoByTwo()
    ensures var a, b := [[1, 2], [3, 4]], [[5, 6], [7, 8]];
      SameShape(a, b) &&
      Dot(a, b, 0, 0) == 19 && Dot(a, b, 0, 1) == 22 &&
      Dot(a, b, 1, 0) == 43 && Dot(a, b, 1, 1) == 50
  {
  }
}
