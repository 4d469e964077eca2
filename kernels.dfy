/** The four multiplication kernels of mem-speed.c. Each adds the product of its
    operands into res with +=; each is proved to add exactly Dot(mul1, mul2, r, c)
    to every cell (r, c), the sum the naive kernel computes. */
module Kernels {
  import opened Matrices
  import opened Storage

  /** The MIN macro: the smaller of its arguments. */
  function Min(x: int, y: int): (m: int)
    ensures m <= x && m <= y && (m == x || m == y)
  {
    if x < y then x else y
  }

  /** matrix_multiply: the i-j-k triple loop. */
  method MatrixMultiply(sz: nat, mul1: array2<int>, mul2: array2<int>, res: array2<int>)
    requires SquareArray(mul1, sz) && SquareArray(mul2, sz) && SquareArray(res, sz)
    requires res != mul1 && res != mul2
    modifies res
    ensures forall r, c :: 0 <= r < sz && 0 <= c < sz ==>
      res[r, c] == old(res[r, c]) + Dot(Cells(mul1), Cells(mul2), r, c)
  {
    ghost var a, b := Cells(mul1), Cells(mul2);
    assert SameShape(a, b) && |a| == sz;
    var i := 0;
    while i < sz
      invariant i <= sz
      invariant forall r, c :: 0 <= r < sz && 0 <= c < sz ==>
        res[r, c] == old(res[r, c]) + (if r < i then Dot(a, b, r, c) else 0)
    {
      var j := 0;
      while j < sz
        invariant j <= sz
        invariant forall r, c :: 0 <= r < sz && 0 <= c < sz ==>
          res[r, c] == old(res[r, c]) + (if RowMajorBefore(r, c, i, j) then Dot(a, b, r, c) else 0)
      {
        AddDot(sz, i, j, mul1, mul2, res);
        j := j + 1;
      }
      i := i + 1;
    }
  }

  /** The k loop of matrix_multiply: adds mul1[i][k] * mul2[k][j] to res[i][j]
      for k = 0 .. sz - 1 and touches no other cell. */
  method AddDot(sz: nat, i: nat, j: nat, mul1: array2<int>, mul2: array2<int>, res: array2<int>)
    requires i < sz && j < sz
    requires SquareArray(mul1, sz) && SquareArray(mul2, sz) && SquareArray(res, sz)
    requires res != mul1 && res != mul2
    modifies res
    ensures forall r, c :: 0 <= r < sz && 0 <= c < sz ==>
      res[r, c] == old(res[r, c]) + (if r == i && c == j then Dot(Cells(mul1), Cells(mul2), i, j) else 0)
  {
    ghost var a, b := Cells(mul1), Cells(mul2);
    assert SameShape(a, b) && |a| == sz;
    var k := 0;
    while k < sz
      invariant k <= sz
      invariant res[i, j] == old(res[i, j]) + DotRange(a, b, i, j, 0, k)
      invariant forall r, c :: 0 <= r < sz && 0 <= c < sz && (r != i || c != j) ==> res[r, c] == old(res[r, c])
    {
      res[i, j] := res[i, j] + mul1[i, k] * mul2[k, j];
      k := k + 1;
    }
  }

  /** matrix_multiply_t: transposes mul2 in place, then multiplies reading
      mul2[j][k], which now holds the original mul2[k][j]. mul2 is left transposed. */
  method MatrixMultiplyT(sz: nat, mul1: array2<int>, mul2: array2<int>, res: array2<int>)
    requires SquareArray(mul1, sz) && SquareArray(mul2, sz) && SquareArray(res, sz)
    requires res != mul1 && res != mul2 && mul1 != mul2
    modifies mul2, res
    ensures forall r, c :: 0 <= r < sz && 0 <= c < sz ==> mul2[r, c] == old(mul2[c, r])
    ensures forall r, c :: 0 <= r < sz && 0 <= c < sz ==>
      res[r, c] == old(res[r, c]) + Dot(Cells(mul1), old(Cells(mul2)), r, c)
  {
    ghost var a, b := Cells(mul1), Cells(mul2);
    TransposeInPlace(sz, mul2);
    SameCells(Cells(mul2), Transpose(b));
    TransposeTwice(b);
    MultiplyTransposed(sz, mul1, mul2, res, a, b);
  }

  /** The multiplication loops of matrix_multiply_t, run after the transpose:
      with mul2 holding the transpose of b, every res[r][c] gains the dot
      product of row r of a and column c of b. */
  method MultiplyTransposed(sz: nat, mul1: array2<int>, mul2: array2<int>, res: array2<int>, ghost a: Mat, ghost b: Mat)
    requires SquareArray(mul1, sz) && SquareArray(mul2, sz) && SquareArray(res, sz)
    requires res != mul1 && res != mul2
    requires a == Cells(mul1) && b == Transpose(Cells(mul2))
    modifies res
    ensures forall r, c :: 0 <= r < sz && 0 <= c < sz ==> res[r, c] == old(res[r, c]) + Dot(a, b, r, c)
  {
    assert SameShape(a, b) && |a| == sz;
    var i := 0;
    while i < sz
      invariant i <= sz
      invariant forall r, c :: 0 <= r < sz && 0 <= c < sz ==>
        res[r, c] == old(res[r, c]) + (if r < i then Dot(a, b, r, c) else 0)
    {
      var j := 0;
      while j < sz
        invariant j <= sz
        invariant forall r, c :: 0 <= r < sz && 0 <= c < sz ==>
          res[r, c] == old(res[r, c]) + (if RowMajorBefore(r, c, i, j) then Dot(a, b, r, c) else 0)
      {
        AddDotTransposed(sz, i, j, mul1, mul2, res, a, b);
        j := j + 1;
      }
      i := i + 1;
    }
  }

  /** The transposition at the start of matrix_multiply_t: for every i and every
      j >= i, cells (i, j) and (j, i) are swapped through a temporary, so each
      pair off the diagonal is exchanged exactly once. */
  method TransposeInPlace(sz: nat, m: array2<int>)
    requires SquareArray(m, sz)
    modifies m
    ensures forall r, c :: 0 <= r < sz && 0 <= c < sz ==> m[r, c] == old(m[c, r])
  {
    var i := 0;
    while i < sz
      invariant i <= sz
      invariant forall r, c :: 0 <= r < sz && 0 <= c < sz ==>
        m[r, c] == if r < i || c < i then old(m[c, r]) else old(m[r, c])
    {
      var j := i;
      while j < sz
        invariant i <= j <= sz
        invariant forall r, c :: 0 <= r < sz && 0 <= c < sz ==>
          m[r, c] == if r < i || c < i || (r == i && c < j) || (c == i && r < j) then old(m[c, r]) else old(m[r, c])
      {
        var tmp := m[i, j];
        m[i, j] := m[j, i];
        m[j, i] := tmp;
        j := j + 1;
      }
      i := i + 1;
    }
  }

  /** The k loop of matrix_multiply_t: adds mul1[i][k] * mul2[j][k] to res[i][j],
      so the sum is taken against the transpose of what mul2 holds. */
  method AddDotTransposed(sz: nat, i: nat, j: nat, mul1: array2<int>, mul2: array2<int>, res: array2<int>,
                          ghost a: Mat, ghost b: Mat)
    requires i < sz && j < sz
    requires SquareArray(mul1, sz) && SquareArray(mul2, sz) && SquareArray(res, sz)
    requires res != mul1 && res != mul2
    requires a == Cells(mul1) && b == Transpose(Cells(mul2))
    modifies res
    ensures forall r, c :: 0 <= r < sz && 0 <= c < sz ==>
      res[r, c] == old(res[r, c]) + (if r == i && c == j then Dot(a, b, i, j) else 0)
  {
    assert SameShape(a, b) && |a| == sz;
    var k := 0;
    while k < sz
      invariant k <= sz
      invariant res[i, j] == old(res[i, j]) + DotRange(a, b, i, j, 0, k)
      invariant forall r, c :: 0 <= r < sz && 0 <= c < sz && (r != i || c != j) ==> res[r, c] == old(res[r, c])
    {
      res[i, j] := res[i, j] + mul1[i, k] * mul2[j, k];
      k := k + 1;
    }
  }

  /** matrix_multiply_fast: the same sum computed tile by tile. Block origins i, j
      and k step by sm; inside a block the loop order is i2, k2, j2. Every cell
      still receives its products in increasing k, once each. */
  method MatrixMultiplyFast(sz: nat, sm: nat, mul1: array2<int>, mul2: array2<int>, res: array2<int>)
    requires sm > 0
    requires SquareArray(mul1, sz) && SquareArray(mul2, sz) && SquareArray(res, sz)
    requires res != mul1 && res != mul2
    modifies res
    ensures forall r, c :: 0 <= r < sz && 0 <= c < sz ==>
      res[r, c] == old(res[r, c]) + Dot(Cells(mul1), Cells(mul2), r, c)
  {
    ghost var a, b := Cells(mul1), Cells(mul2);
    assert SameShape(a, b) && |a| == sz;
    var i := 0;
    while i < sz
      invariant forall r, c :: 0 <= r < sz && 0 <= c < sz ==>
        res[r, c] == old(res[r, c]) + (if r < i then Dot(a, b, r, c) else 0)
    {
      var j := 0;
      while j < sz
        invariant forall r, c :: 0 <= r < sz && 0 <= c < sz ==>
          res[r, c] == old(res[r, c]) + (if r < i || (r < i + sm && c < j) then Dot(a, b, r, c) else 0)
      {
        MultiplyTileAllK(sz, sm, i, j, mul1, mul2, res);
        j := j + sm;
      }
      i := i + sm;
    }
  }

  /** Cell (r, c) lies in the tile whose top-left corner is (i, j). */
  predicate InTile(r: nat, c: nat, i: nat, j: nat, sm: nat) {
    i <= r < i + sm && j <= c < j + sm
  }

  /** The k-block loop of matrix_multiply_fast for the tile at (i, j): the
      k-blocks [k, k + MIN(sm, sz - k)) follow each other, so every cell of the
      tile receives all of its products and no other cell changes. */
  method MultiplyTileAllK(sz: nat, sm: nat, i: nat, j: nat,
                          mul1: array2<int>, mul2: array2<int>, res: array2<int>)
    requires sm > 0 && i < sz && j < sz
    requires SquareArray(mul1, sz) && SquareArray(mul2, sz) && SquareArray(res, sz)
    requires res != mul1 && res != mul2
    modifies res
    ensures forall r, c :: 0 <= r < sz && 0 <= c < sz ==>
      res[r, c] == old(res[r, c]) + (if InTile(r, c, i, j, sm) then Dot(Cells(mul1), Cells(mul2), r, c) else 0)
  {
    ghost var a, b := Cells(mul1), Cells(mul2);
    assert SameShape(a, b) && |a| == sz;
    var k := 0;
    ghost var done := 0;
    while k < sz
      invariant done == Min(k, sz)
      invariant forall r, c :: 0 <= r < sz && 0 <= c < sz ==>
        res[r, c] == old(res[r, c]) + (if InTile(r, c, i, j, sm) then DotRange(a, b, r, c, 0, done) else 0)
    {
      MultiplyTile(sz, sm, i, j, k, mul1, mul2, res);
      TileSplit(a, b, i, j, sm, done, Min(k + sm, sz));
      done := Min(k + sm, sz);
      k := k + sm;
    }
  }

  /** Every cell of the tile at (i, j) takes its sum over [0, hi) as the sum over
      [0, mid) followed by the sum over [mid, hi). */
  lemma TileSplit(a: Mat, b: Mat, i: nat, j: nat, sm: nat, mid: nat, hi: nat)
    requires SameShape(a, b) && mid <= hi <= |a|
    ensures forall r, c :: 0 <= r < |a| && 0 <= c < |a| && InTile(r, c, i, j, sm) ==>
      DotRange(a, b, r, c, 0, mid) + DotRange(a, b, r, c, mid, hi) == DotRange(a, b, r, c, 0, hi)
  {
    forall r, c | 0 <= r < |a| && 0 <= c < |a| && InTile(r, c, i, j, sm)
      ensures DotRange(a, b, r, c, 0, mid) + DotRange(a, b, r, c, mid, hi) == DotRange(a, b, r, c, 0, hi)
    {
      DotRangeSplit(a, b, r, c, 0, mid, hi);
    }
  }

  /** One step of the k-block loop: the products for k in [k, k + MIN(sm, sz - k))
      are added to every cell of the tile at (i, j), whose extent is
      MIN(sm, sz - i) rows by MIN(sm, sz - j) columns. */
  method MultiplyTile(sz: nat, sm: nat, i: nat, j: nat, k: nat,
                      mul1: array2<int>, mul2: array2<int>, res: array2<int>)
    requires sm > 0 && i < sz && j < sz && k < sz
    requires SquareArray(mul1, sz) && SquareArray(mul2, sz) && SquareArray(res, sz)
    requires res != mul1 && res != mul2
    modifies res
    ensures forall r, c :: 0 <= r < sz && 0 <= c < sz ==>
      res[r, c] == old(res[r, c]) +
        (if InTile(r, c, i, j, sm) then DotRange(Cells(mul1), Cells(mul2), r, c, k, Min(k + sm, sz)) else 0)
  {
    ghost var a, b := Cells(mul1), Cells(mul2);
    assert SameShape(a, b) && |a| == sz;
    var i2Max: nat := Min(sm, sz - i);
    var i2 := 0;
    while i2 < i2Max
      invariant i2 <= i2Max
      invariant forall r, c :: 0 <= r < sz && 0 <= c < sz ==>
        res[r, c] == old(res[r, c]) +
          (if InTile(r, c, i, j, sm) && r < i + i2 then DotRange(a, b, r, c, k, Min(k + sm, sz)) else 0)
    {
      MultiplyTileRow(sz, sm, i + i2, j, k, mul1, mul2, res);
      i2 := i2 + 1;
    }
  }

  /** One step of the i2 loop: row r of the tile at column j receives the
      products for k in [k, k + MIN(sm, sz - k)), in the k2, j2 order. */
  method MultiplyTileRow(sz: nat, sm: nat, r: nat, j: nat, k: nat,
                         mul1: array2<int>, mul2: array2<int>, res: array2<int>)
    requires sm > 0 && r < sz && j < sz && k < sz
    requires SquareArray(mul1, sz) && SquareArray(mul2, sz) && SquareArray(res, sz)
    requires res != mul1 && res != mul2
    modifies res
    ensures forall r', c :: 0 <= r' < sz && 0 <= c < sz ==>
      res[r', c] == old(res[r', c]) +
        (if r' == r && j <= c < j + sm then DotRange(Cells(mul1), Cells(mul2), r, c, k, Min(k + sm, sz)) else 0)
  {
    ghost var a, b := Cells(mul1), Cells(mul2);
    assert SameShape(a, b) && |a| == sz;
    var k2Max: nat := Min(sm, sz - k);
    var k2 := 0;
    ghost var done := k;
    assert forall c :: 0 <= c < sz ==> DotRange(a, b, r, c, k, k) == 0;
    while k2 < k2Max
      invariant k2 <= k2Max && done == k + k2
      invariant forall r', c :: 0 <= r' < sz && 0 <= c < sz ==>
        res[r', c] == old(res[r', c]) +
          (if r' == r && j <= c < j + sm then DotRange(a, b, r, c, k, done) else 0)
    {
      var kk := k + k2;
      assert kk == done;
      AddScaledRow(sz, sm, r, j, kk, mul1, mul2, res, a, b);
      DotRangeNext(a, b, r, k, done);
      k2, done := k2 + 1, done + 1;
    }
    assert done == Min(k + sm, sz);
  }

  /** One step of matrix_multiply_fast's k2 loop: the j2 loop adds
      mul1[r][kk] * mul2[kk][c] to cell (r, c) for every column c of the tile. */
  method AddScaledRow(sz: nat, sm: nat, r: nat, j: nat, kk: nat,
                      mul1: array2<int>, mul2: array2<int>, res: array2<int>, ghost a: Mat, ghost b: Mat)
    requires sm > 0 && r < sz && j < sz && kk < sz
    requires SquareArray(mul1, sz) && SquareArray(mul2, sz) && SquareArray(res, sz)
    requires res != mul1 && res != mul2
    requires a == Cells(mul1) && b == Cells(mul2)
    modifies res
    ensures forall r', c :: 0 <= r' < sz && 0 <= c < sz ==>
      res[r', c] == old(res[r', c]) + (if r' == r && j <= c < j + sm then Term(a, b, r, c, kk) else 0)
  {
    var j2Max: nat := Min(sm, sz - j);
    var j2 := 0;
    while j2 < j2Max
      invariant j2 <= j2Max
      invariant forall r', c :: 0 <= r' < sz && 0 <= c < sz ==>
        res[r', c] == old(res[r', c]) + (if r' == r && j <= c < j + j2 then mul1[r, kk] * mul2[kk, c] else 0)
    {
      res[r, j + j2] := res[r, j + j2] + mul1[r, kk] * mul2[kk, j + j2];
      j2 := j2 + 1;
    }
  }
}
