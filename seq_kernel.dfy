/** matrix_multiply_seq: the tiled kernel run over the flat layout, walking each
    operand with a running row pointer that advances by one row stride (sz cells)
    at a time instead of indexing through the row table. */
module SeqKernel {
  import opened Matrices
  import opened Storage
  import opened Kernels

  /** Three well-formed flat matrices of side sz; the result buffer is shared
      with neither operand. */
  ghost predicate Operands(sz: nat, mul1: SeqMatrix, mul2: SeqMatrix, res: SeqMatrix)
    reads mul1.rows, mul2.rows, res.rows
  {
    mul1.Valid() && mul2.Valid() && res.Valid() &&
    mul1.sz == sz && mul2.sz == sz && res.sz == sz &&
    res.data != mul1.data && res.data != mul2.data
  }

  /** matrix_multiply_seq: every cell of res receives the dot product of its row
      of mul1 and its column of mul2, exactly as matrix_multiply computes it. */
  method MatrixMultiplySeq(sz: nat, sm: nat, mul1: SeqMatrix, mul2: SeqMatrix, res: SeqMatrix)
    requires sm > 0 && Operands(sz, mul1, mul2, res)
    modifies res.data
    ensures res.Valid()
    ensures forall r, c :: 0 <= r < sz && 0 <= c < sz ==>
      res.Value()[r][c] == old(res.Value()[r][c]) + Dot(mul1.Value(), mul2.Value(), r, c)
  {
    ghost var a, b := mul1.Value(), mul2.Value();
    assert SameShape(a, b) && |a| == sz;
    var i := 0;
    while i < sz
      invariant forall r, c :: 0 <= r < sz && 0 <= c < sz ==>
        res.At(r, c) == old(res.At(r, c)) + (if r < i then Dot(a, b, r, c) else 0)
    {
      var j := 0;
      while j < sz
        invariant forall r, c :: 0 <= r < sz && 0 <= c < sz ==>
          res.At(r, c) == old(res.At(r, c)) + (if r < i || (r < i + sm && c < j) then Dot(a, b, r, c) else 0)
      {
        SeqTileAllK(sz, sm, i, j, mul1, mul2, res, a, b);
        j := j + sm;
      }
      i := i + sm;
    }
  }

  /** The k-block loop for the tile at (i, j): every cell of the tile receives
      all of its products; no other cell changes. */
  method SeqTileAllK(sz: nat, sm: nat, i: nat, j: nat, mul1: SeqMatrix, mul2: SeqMatrix, res: SeqMatrix,
                     ghost a: Mat, ghost b: Mat)
    requires sm > 0 && i < sz && j < sz && Operands(sz, mul1, mul2, res)
    requires a == mul1.Value() && b == mul2.Value()
    modifies res.data
    ensures forall r, c :: 0 <= r < sz && 0 <= c < sz ==>
      res.At(r, c) == old(res.At(r, c)) + (if InTile(r, c, i, j, sm) then Dot(a, b, r, c) else 0)
  {
    assert SameShape(a, b) && |a| == sz;
    var k := 0;
    ghost var done := 0;
    while k < sz
      invariant done == Min(k, sz)
      invariant forall r, c :: 0 <= r < sz && 0 <= c < sz ==>
        res.At(r, c) == old(res.At(r, c)) + (if InTile(r, c, i, j, sm) then DotRange(a, b, r, c, 0, done) else 0)
    {
      SeqTile(sz, sm, i, j, k, mul1, mul2, res, a, b);
      TileSplit(a, b, i, j, sm, done, Min(k + sm, sz));
      done := Min(k + sm, sz);
      k := k + sm;
    }
  }

  /** One k-block: rres and rmul1 start at &res[i][j] and &mul1[i][k] and step
      down one row per i2; each row of the tile receives the products for k in
      [k, k + MIN(sm, sz - k)). */
  method SeqTile(sz: nat, sm: nat, i: nat, j: nat, k: nat, mul1: SeqMatrix, mul2: SeqMatrix, res: SeqMatrix,
                 ghost a: Mat, ghost b: Mat)
    requires sm > 0 && i < sz && j < sz && k < sz && Operands(sz, mul1, mul2, res)
    requires a == mul1.Value() && b == mul2.Value()
    modifies res.data
    ensures forall r, c :: 0 <= r < sz && 0 <= c < sz ==>
      res.At(r, c) == old(res.At(r, c)) +
        (if InTile(r, c, i, j, sm) then DotRange(a, b, r, c, k, Min(k + sm, sz)) else 0)
  {
    var i2Max: nat := Min(sm, sz - i);
    var i2, rres, rmul1 := 0, res.rows[i] + j, mul1.rows[i] + k;
    ghost var row := i;
    while i2 < i2Max
      invariant i2 <= i2Max && row == i + i2
      invariant rres == Offset(row, j, sz) && rmul1 == Offset(row, k, sz)
      invariant forall r, c :: 0 <= r < sz && 0 <= c < sz ==>
        res.At(r, c) == old(res.At(r, c)) +
          (if InTile(r, c, i, j, sm) && r < row then DotRange(a, b, r, c, k, Min(k + sm, sz)) else 0)
    {
      SeqTileRow(sz, sm, row, j, k, rres, rmul1, mul1, mul2, res, a, b);
      RowStride(row, sz);
      i2, rres, rmul1, row := i2 + 1, rres + sz, rmul1 + sz, row + 1;
    }
    assert row == Min(i + sm, sz);
  }

  /** One step of the i2 loop: rmul2 starts at &mul2[k][j] and steps down one
      row per k2; row r of the tile receives the products for k in
      [k, k + MIN(sm, sz - k)), in increasing k. */
  method SeqTileRow(sz: nat, sm: nat, ghost r: nat, j: nat, k: nat, rres: nat, rmul1: nat,
                    mul1: SeqMatrix, mul2: SeqMatrix, res: SeqMatrix, ghost a: Mat, ghost b: Mat)
    requires sm > 0 && r < sz && j < sz && k < sz && Operands(sz, mul1, mul2, res)
    requires a == mul1.Value() && b == mul2.Value()
    requires rres == Offset(r, j, sz) && rmul1 == Offset(r, k, sz)
    modifies res.data
    ensures forall r', c :: 0 <= r' < sz && 0 <= c < sz ==>
      res.At(r', c) == old(res.At(r', c)) +
        (if r' == r && j <= c < j + sm then DotRange(a, b, r, c, k, Min(k + sm, sz)) else 0)
  {
    var k2Max: nat := Min(sm, sz - k);
    var k2, rmul2 := 0, mul2.rows[k] + j;
    ghost var done := k;
    assert forall c :: 0 <= c < sz ==> DotRange(a, b, r, c, k, k) == 0;
    while k2 < k2Max
      invariant k2 <= k2Max && done == k + k2
      invariant rmul2 == Offset(done, j, sz)
      invariant forall r', c :: 0 <= r' < sz && 0 <= c < sz ==>
        res.At(r', c) == old(res.At(r', c)) +
          (if r' == r && j <= c < j + sm then DotRange(a, b, r, c, k, done) else 0)
    {
      SeqScaledRow(sz, sm, r, j, done, rres, rmul1 + k2, rmul2, mul1, mul2, res, a, b);
      DotRangeNext(a, b, r, k, done);
      RowStride(done, sz);
      k2, rmul2, done := k2 + 1, rmul2 + sz, done + 1;
    }
    assert done == Min(k + sm, sz);
  }

  /** The j2 loop: rres[j2] += rmul1[k2] * rmul2[j2] for the columns of the
      tile, where rres, rmul1 + k2 and rmul2 address res[r][j], mul1[r][kk] and
      mul2[kk][j]. */
  method SeqScaledRow(sz: nat, sm: nat, ghost r: nat, j: nat, ghost kk: nat, rres: nat, p1: nat, rmul2: nat,
                      mul1: SeqMatrix, mul2: SeqMatrix, res: SeqMatrix, ghost a: Mat, ghost b: Mat)
    requires r < sz && j < sz && kk < sz && Operands(sz, mul1, mul2, res)
    requires a == mul1.Value() && b == mul2.Value()
    requires rres == Offset(r, j, sz) && p1 == Offset(r, kk, sz) && rmul2 == Offset(kk, j, sz)
    modifies res.data
    ensures forall r', c :: 0 <= r' < sz && 0 <= c < sz ==>
      res.At(r', c) == old(res.At(r', c)) +
        (if r' == r && j <= c < j + sm then Term(a, b, r, c, kk) else 0)
  {
    var j2Max: nat := Min(sm, sz - j);
    var j2 := 0;
    while j2 < j2Max
      invariant j2 <= j2Max
      invariant forall r', c :: 0 <= r' < sz && 0 <= c < sz ==>
        res.At(r', c) == old(res.At(r', c)) +
          (if r' == r && j <= c < j + j2 then mul1.At(r, kk) * mul2.At(kk, c) else 0)
    {
      OffsetInjective(r, j + j2, sz);
      assert rres + j2 == Offset(r, j + j2, sz);
      assert rmul2 + j2 == Offset(kk, j + j2, sz);
      ghost var x := mul1.At(r, kk) * mul2.At(kk, j + j2);
      assert mul1.data[p1] * mul2.data[rmul2 + j2] == x;
      res.data[rres + j2] := res.data[rres + j2] + mul1.data[p1] * mul2.data[rmul2 + j2];
      assert mul1.At(r, kk) * mul2.At(kk, j + j2) == x;
      assert res.At(r, j + j2) == old(res.At(r, j + j2)) + x;
      j2 := j2 + 1;
    }
    ValueAt(mul1);
    ValueAt(mul2);
  }
}
