/** measure_speed without its clock and printf: allocate the operands and the
    results, fill and copy the operands, run the four kernels in the source's
    order and compare each result with the naive one. */
module Harness {
  import opened Matrices
  import opened Storage
  import opened Kernels
  import opened SeqKernel

  /** fill_matrix with the values rand() would have produced passed in. */
  method FillMatrix(sz: nat, m: array2<int>, values: Mat)
    requires SquareArray(m, sz) && IsSquare(values) && |values| == sz
    modifies m
    ensures Cells(m) == values
  {
    var i := 0;
    while i < sz
      invariant i <= sz
      invariant forall r, c :: 0 <= r < i && 0 <= c < sz ==> m[r, c] == values[r][c]
    {
      var j := 0;
      while j < sz
        invariant j <= sz
        invariant forall r, c :: 0 <= r < sz && 0 <= c < sz && RowMajorBefore(r, c, i, j) ==> m[r, c] == values[r][c]
      {
        m[i, j] := values[i][j];
        j := j + 1;
      }
      i := i + 1;
    }
    SameCells(Cells(m), values);
  }

  /** All cells of m are zero, as allocate_matrix leaves them. */
  ghost predicate Zero(m: array2<int>, sz: nat)
    requires SquareArray(m, sz)
    reads m
  {
    forall r, c :: 0 <= r < sz && 0 <= c < sz ==> m[r, c] == 0
  }

  /** mem-speed.c:191-200: the naive kernel into res1, the tiled one into res2, and
      the check of res2 against res1, which finds no mismatch. */
  method NaiveThenTiled(sz: nat, sm: nat, mul1: array2<int>, mul2: array2<int>, res1: array2<int>, res2: array2<int>)
    returns (check1: Option<(nat, nat)>)
    requires sm > 0 && SquareArray(mul1, sz) && SquareArray(mul2, sz) && SquareArray(res1, sz) && SquareArray(res2, sz)
    requires Zero(res1, sz) && Zero(res2, sz)
    requires res1 != mul1 && res1 != mul2 && res2 != mul1 && res2 != mul2 && res1 != res2
    modifies res1, res2
    ensures Cells(res1) == Product(Cells(mul1), Cells(mul2))
    ensures check1 == None
  {
    ghost var p := Product(Cells(mul1), Cells(mul2));
    MatrixMultiply(sz, mul1, mul2, res1);
    SameCells(Cells(res1), p);
    MatrixMultiplyFast(sz, sm, mul1, mul2, res2);
    SameCells(Cells(res2), p);
    check1 := CheckEql(sz, Cells(res1), Cells(res2));
  }

  /** check answers None exactly when every cell of m is zero, and otherwise
      names the first cell of m, in row-major order, that is not zero. */
  ghost predicate ReportsFirstNonzero(check: Option<(nat, nat)>, m: Mat, sz: nat)
    requires IsSquare(m) && |m| == sz
  {
    (check == None <==> forall r, c :: 0 <= r < sz && 0 <= c < sz ==> m[r][c] == 0) &&
    (check.Some? ==>
      var (i, j) := check.value;
      i < sz && j < sz && m[i][j] != 0 &&
      forall r, c :: 0 <= r < sz && 0 <= c < sz && RowMajorBefore(r, c, i, j) ==> m[r][c] == 0)
  }

  /** check_eql of p against start + p reports the first nonzero cell of start. */
  lemma MismatchIsFirstNonzero(check: Option<(nat, nat)>, p: Mat, s: Mat, start: Mat, sz: nat)
    requires SameShape(p, s) && SameShape(p, start) && |p| == sz
    requires forall r, c :: 0 <= r < sz && 0 <= c < sz ==> s[r][c] == start[r][c] + p[r][c]
    requires check == None <==> forall r, c :: 0 <= r < sz && 0 <= c < sz ==> p[r][c] == s[r][c]
    requires check.Some? ==>
      var (i, j) := check.value;
      i < sz && j < sz && p[i][j] != s[i][j] &&
      forall r, c :: 0 <= r < sz && 0 <= c < sz && RowMajorBefore(r, c, i, j) ==> p[r][c] == s[r][c]
    ensures ReportsFirstNonzero(check, start, sz)
  {
    assert forall r, c :: 0 <= r < sz && 0 <= c < sz ==> (p[r][c] == s[r][c] <==> start[r][c] == 0);
    if check.Some? {
      var (i, j) := check.value;
      assert start[i][j] != 0;
      forall r, c | 0 <= r < sz && 0 <= c < sz && RowMajorBefore(r, c, i, j)
        ensures start[r][c] == 0
      {
        assert p[r][c] == s[r][c];
      }
    }
  }

  /** mem-speed.c:204-207: the flat kernel into res_seq and the check against res1.
      res_seq ends as its starting contents plus the product, so the check
      reports exactly the first cell whose starting contents were not zero. */
  method FlatThenCheck(sz: nat, sm: nat, res1: array2<int>, mul1Seq: SeqMatrix, mul2Seq: SeqMatrix, resSeq: SeqMatrix,
                       ghost start: Mat)
    returns (check2: Option<(nat, nat)>)
    requires sm > 0 && SquareArray(res1, sz) && Operands(sz, mul1Seq, mul2Seq, resSeq)
    requires Cells(res1) == Product(mul1Seq.Value(), mul2Seq.Value())
    requires start == resSeq.Value()
    modifies resSeq.data
    ensures resSeq.Valid()
    ensures forall r, c :: 0 <= r < sz && 0 <= c < sz ==> resSeq.Value()[r][c] == start[r][c] + Cells(res1)[r][c]
    ensures ReportsFirstNonzero(check2, start, sz)
  {
    MatrixMultiplySeq(sz, sm, mul1Seq, mul2Seq, resSeq);
    var p, s := Cells(res1), resSeq.Value();
    assert forall r, c :: 0 <= r < sz && 0 <= c < sz ==> s[r][c] == start[r][c] + p[r][c];
    check2 := CheckEql(sz, p, s);
    MismatchIsFirstNonzero(check2, p, s, start, sz);
  }

  /** mem-speed.c:211-214: the transposing kernel into res3 and the check against
      res1, which finds no mismatch although mul2 is left transposed. */
  method TransposedThenCheck(sz: nat, mul1: array2<int>, mul2: array2<int>, res1: array2<int>, res3: array2<int>)
    returns (check3: Option<(nat, nat)>)
    requires SquareArray(mul1, sz) && SquareArray(mul2, sz) && SquareArray(res1, sz) && SquareArray(res3, sz)
    requires Zero(res3, sz) && Cells(res1) == Product(Cells(mul1), Cells(mul2))
    requires mul1 != mul2 && res3 != mul1 && res3 != mul2 && res3 != res1 && res1 != mul2
    modifies mul2, res3
    ensures check3 == None
  {
    ghost var p := Product(Cells(mul1), Cells(mul2));
    MatrixMultiplyT(sz, mul1, mul2, res3);
    SameCells(Cells(res3), p);
    check3 := CheckEql(sz, Cells(res1), Cells(res3));
  }

  /** The body of measure_speed from the first fill_matrix on: the three
      checks of the tiled, flat and transposing kernels against the naive one.
      The naive, tiled and transposing results start at zero; the flat one
      starts with whatever its buffer holds, and its check reports the first
      cell, in row-major order, where that buffer did not hold zero. */
  method RunKernels(sz: nat, sm: nat, v1: Mat, v2: Mat,
                    mul1: array2<int>, mul2: array2<int>, res1: array2<int>, res2: array2<int>, res3: array2<int>,
                    mul1Seq: SeqMatrix, mul2Seq: SeqMatrix, resSeq: SeqMatrix)
    returns (check1: Option<(nat, nat)>, check2: Option<(nat, nat)>, check3: Option<(nat, nat)>)
    requires sm > 0 && IsSquare(v1) && IsSquare(v2) && |v1| == sz && |v2| == sz
    requires SquareArray(mul1, sz) && SquareArray(mul2, sz)
    requires SquareArray(res1, sz) && SquareArray(res2, sz) && SquareArray(res3, sz)
    requires Zero(res1, sz) && Zero(res2, sz) && Zero(res3, sz)
    requires mul1 != mul2 && mul1 != res1 && mul1 != res2 && mul1 != res3 && mul2 != res1 && mul2 != res2 && mul2 != res3
    requires res1 != res2 && res1 != res3 && res2 != res3
    requires Operands(sz, mul1Seq, mul2Seq, resSeq) && mul1Seq.data != mul2Seq.data
    modifies mul1, mul2, res1, res2, res3, mul1Seq.data, mul2Seq.data, resSeq.data
    ensures check1 == None && check3 == None
    ensures resSeq.Valid()
    ensures forall r, c :: 0 <= r < sz && 0 <= c < sz ==>
              resSeq.Value()[r][c] == old(resSeq.Value())[r][c] + Dot(v1, v2, r, c)
    ensures ReportsFirstNonzero(check2, old(resSeq.Value()), sz)
  {
    ghost var initial := resSeq.Value();
    FillMatrix(sz, mul1, v1);
    FillMatrix(sz, mul2, v2);
    CopyMatrix(sz, mul1Seq, mul1);
    CopyMatrix(sz, mul2Seq, mul2);
    assert resSeq.Value() == initial;
    assert mul1Seq.Value() == Cells(mul1) && mul2Seq.Value() == Cells(mul2);
    check1 := NaiveThenTiled(sz, sm, mul1, mul2, res1, res2);
    check2 := FlatThenCheck(sz, sm, res1, mul1Seq, mul2Seq, resSeq, initial);
    check3 := TransposedThenCheck(sz, mul1, mul2, res1, res3);
  }

  /** measure_speed as written: allocate_matrix_seq leaves res_seq's buffer
      as malloc returned it, and matrix_multiply_seq adds into it. The tiled
      and transposing kernels agree with the naive one; the flat kernel's
      check reports the first cell the fresh buffer did not hold zero in, so
      it passes only when that buffer happened to be all zeros. */
  method MeasureSpeed(sz: nat, sm: nat, v1: Mat, v2: Mat)
    returns (check1: Option<(nat, nat)>, check2: Option<(nat, nat)>, check3: Option<(nat, nat)>,
             resSeq: SeqMatrix, ghost start: Mat)
    requires sm > 0 && IsSquare(v1) && IsSquare(v2) && |v1| == sz && |v2| == sz
    ensures check1 == None && check3 == None
    ensures fresh(resSeq.data) && resSeq.sz == sz && resSeq.Valid()
    ensures IsSquare(start) && |start| == sz
    ensures forall r, c :: 0 <= r < sz && 0 <= c < sz ==> resSeq.Value()[r][c] == start[r][c] + Dot(v1, v2, r, c)
    ensures ReportsFirstNonzero(check2, start, sz)
  {
    var mul1 := AllocateMatrix(sz);
    var mul2 := AllocateMatrix(sz);
    var res1 := AllocateMatrix(sz);
    var res2 := AllocateMatrix(sz);
    var res3 := AllocateMatrix(sz);
    var mul1Seq := new SeqMatrix(sz);
    var mul2Seq := new SeqMatrix(sz);
    resSeq := new SeqMatrix(sz);
    start := resSeq.Value();
    check1, check2, check3 := RunKernels(sz, sm, v1, v2, mul1, mul2, res1, res2, res3, mul1Seq, mul2Seq, resSeq);
  }

  /** A 1 x 1 run whose fresh res_seq buffer held 1 is reported at cell (0, 0),
      whatever the operands. */
  lemma UnclearedCellReported(check: Option<(nat, nat)>)
    requires ReportsFirstNonzero(check, [[1]], 1)
    ensures check == Some((0, 0))
  {
    var m: Mat := [[1]];
    assert m[0][0] != 0;
    var (i, j) := check.value;
    assert i == 0 && j == 0;
  }

  /** measure_speed with res_seq cleared after allocation, as allocate_matrix
      clears its rows: all three checks find no mismatch. */
  method MeasureSpeedZeroed(sz: nat, sm: nat, v1: Mat, v2: Mat)
    returns (check1: Option<(nat, nat)>, check2: Option<(nat, nat)>, check3: Option<(nat, nat)>)
    requires sm > 0 && IsSquare(v1) && IsSquare(v2) && |v1| == sz && |v2| == sz
    ensures check1 == None && check2 == None && check3 == None
  {
    var mul1 := AllocateMatrix(sz);
    var mul2 := AllocateMatrix(sz);
    var res1 := AllocateMatrix(sz);
    var res2 := AllocateMatrix(sz);
    var res3 := AllocateMatrix(sz);
    var mul1Seq := new SeqMatrix(sz);
    var mul2Seq := new SeqMatrix(sz);
    var resSeq := new SeqMatrix.Zeroed(sz);
    check1, check2, check3 := RunKernels(sz, sm, v1, v2, mul1, mul2, res1, res2, res3, mul1Seq, mul2Seq, resSeq);
  }
}
