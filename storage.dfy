/** The two storage layouts of mem-speed.c and the helpers that move and compare
    whole matrices: allocate_matrix, allocate_matrix_seq, copy_matrix, check_eql. */
module Storage {
  import opened Matrices

  /** allocate_matrix: sz independently allocated rows, every cell set to zero.
      The jagged layout is an array2, so no two rows can share storage. */
  method AllocateMatrix(sz: nat) returns (m: array2<int>)
    ensures fresh(m) && SquareArray(m, sz)
    ensures forall r, c :: 0 <= r < sz && 0 <= c < sz ==> m[r, c] == 0
  {
    m := new int[sz, sz];
    var i := 0;
    while i < sz
      invariant i <= sz
      invariant forall r, c :: 0 <= r < i && 0 <= c < sz ==> m[r, c] == 0
    {
      var j := 0;
      while j < sz
        invariant j <= sz
        invariant forall r, c :: 0 <= r < sz && 0 <= c < sz && (r < i || (r == i && c < j)) ==> m[r, c] == 0
      {
        m[i, j] := 0;
        j := j + 1;
      }
      i := i + 1;
    }
  }

  /** The row pointers of allocate_matrix_seq: row i starts at data + i * sz. */
  method RowPointers(sz: nat) returns (rows: array<nat>)
    ensures fresh(rows) && rows.Length == sz
    ensures forall r :: 0 <= r < sz ==> rows[r] == RowBase(r, sz)
  {
    rows := new nat[sz];
    var i := 0;
    while i < sz
      invariant i <= sz
      invariant forall r :: 0 <= r < i ==> rows[r] == RowBase(r, sz)
    {
      rows[i] := RowBase(i, sz);
      i := i + 1;
    }
  }

  /** The flat layout: one buffer of sz * sz cells and sz row pointers into it,
      row r at offset r * sz. A pointer is modelled as its offset into data. */
  class SeqMatrix {
    const sz: nat
    const data: array<int>
    const rows: array<nat>

    ghost predicate Valid()
      reads rows
    {
      data.Length == sz * sz && rows.Length == sz &&
      forall r :: 0 <= r < sz ==> rows[r] == RowBase(r, sz)
    }

    /** The cell at row r, column c: the one at offset r * sz + c, where the
        row table's entry rows[r] points. */
    function At(r: nat, c: nat): int
      requires Valid() && r < sz && c < sz
      reads rows, data
    {
      data[Offset(r, c, sz)]
    }

    /** The matrix the buffer holds. */
    function Value(): (v: Mat)
      requires Valid()
      reads rows, data
      ensures |v| == sz && IsSquare(v)
    {
      FlatCells(data[..], sz)
    }

    /** allocate_matrix_seq as written: the buffer comes from malloc and is not
        cleared, so nothing is known about its cells. */
    constructor (sz: nat)
      ensures Valid() && this.sz == sz && fresh(data) && fresh(rows)
    {
      var buffer := new int[sz * sz];
      var rowPointers := RowPointers(sz);
      this.sz, data, rows := sz, buffer, rowPointers;
    }

    /** allocate_matrix_seq with its buffer cleared, as allocate_matrix clears
        its rows: every cell starts at zero. */
    constructor Zeroed(sz: nat)
      ensures Valid() && this.sz == sz && fresh(data) && fresh(rows)
      ensures forall r, c :: 0 <= r < sz && 0 <= c < sz ==> Value()[r][c] == 0
    {
      var buffer := new int[sz * sz];
      var p := 0;
      while p < buffer.Length
        invariant p <= buffer.Length
        invariant forall q :: 0 <= q < p ==> buffer[q] == 0
      {
        buffer[p] := 0;
        p := p + 1;
      }
      var rowPointers := RowPointers(sz);
      this.sz, data, rows := sz, buffer, rowPointers;
    }
  }

  /** Reading a flat matrix through its offsets gives its value, cell by cell. */
  lemma ValueAt(m: SeqMatrix)
    requires m.Valid()
    ensures forall r, c :: 0 <= r < m.sz && 0 <= c < m.sz ==> m.At(r, c) == m.Value()[r][c]
  {
  }

  /** copy_matrix from a jagged source into a flat destination, cell by cell in
      row-major order; only the destination's buffer changes. */
  method CopyMatrix(sz: nat, dst: SeqMatrix, src: array2<int>)
    requires dst.Valid() && dst.sz == sz && SquareArray(src, sz)
    modifies dst.data
    ensures dst.Valid()
    ensures dst.Value() == Cells(src)
  {
    var i := 0;
    while i < sz
      invariant i <= sz
      invariant forall r, c :: 0 <= r < i && 0 <= c < sz ==> dst.data[Offset(r, c, sz)] == src[r, c]
    {
      var j := 0;
      while j < sz
        invariant j <= sz
        invariant forall r, c :: 0 <= r < sz && 0 <= c < sz && (r < i || (r == i && c < j)) ==>
          dst.data[Offset(r, c, sz)] == src[r, c]
      {
        var p := dst.rows[i] + j;
        assert p == Offset(i, j, sz);
        OffsetInjective(i, j, sz);
        dst.data[p] := src[i, j];
        j := j + 1;
      }
      i := i + 1;
    }
    SameCells(dst.Value(), Cells(src));
  }

  /** (r, c) comes strictly before (i, j) in row-major order. */
  predicate RowMajorBefore(r: nat, c: nat, i: nat, j: nat) {
    r < i || (r == i && c < j)
  }

  /** check_eql: scans both matrices in row-major order and stops at the first
      cell where they differ. None stands for "m1 = m2"; Some((i, j)) for the
      report of cell (i, j). */
  method CheckEql(sz: nat, m1: Mat, m2: Mat) returns (mismatch: Option<(nat, nat)>)
    requires SameShape(m1, m2) && |m1| == sz
    ensures mismatch == None <==> forall r, c :: 0 <= r < sz && 0 <= c < sz ==> m1[r][c] == m2[r][c]
    ensures mismatch.Some? ==>
      var (i, j) := mismatch.value;
      i < sz && j < sz && m1[i][j] != m2[i][j] &&
      forall r, c :: 0 <= r < sz && 0 <= c < sz && RowMajorBefore(r, c, i, j) ==> m1[r][c] == m2[r][c]
  {
    var i := 0;
    while i < sz
      invariant i <= sz
      invariant forall r, c :: 0 <= r < i && 0 <= c < sz ==> m1[r][c] == m2[r][c]
    {
      var j := 0;
      while j < sz
        invariant j <= sz
        invariant forall r, c :: 0 <= r < sz && 0 <= c < sz && RowMajorBefore(r, c, i, j) ==> m1[r][c] == m2[r][c]
      {
        if m1[i][j] != m2[i][j] {
          return Some((i, j));
        }
        j := j + 1;
      }
      i := i + 1;
    }
    return None;
  }
}
