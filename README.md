# mem-speed matrix kernels in Dafny

`mem-speed.c` is a benchmark of four ways to multiply two square matrices. Each way is one kernel, and each adds the product into a result matrix with `+=`:

- `matrix_multiply` is the naive i-j-k loop.
- `matrix_multiply_t` transposes its second operand in place first.
- `matrix_multiply_fast` is tiled by `SM` in i, j and k.
- `matrix_multiply_seq` uses the same tiling on a flat row-major buffer. It walks that buffer with running row pointers.

The driver `measure_speed` runs the kernels in turn. It compares each result with the naive one using `check_eql`.

This project models those kernels, the two storage layouts (`allocate_matrix` and `allocate_matrix_seq`), `copy_matrix`, `check_eql` and the order of calls in `measure_speed`. It proves that every kernel adds exactly the matrix product to its result. Cells are mathematical integers.

Modules:

- `Matrices` (matrices.dfy): matrices as values (`Mat = seq<seq<int>>`).
  - `DotRange`, `Dot` and `Product` are the sums the kernels accumulate.
  - `Transpose` is the transpose.
  - The offset arithmetic of the flat layout: `RowBase(r, n) = r * n` and `Offset(r, c, n) = r * n + c`.
- `Storage` (storage.dfy): the jagged layout and the flat layout.
  - A jagged matrix is an `array2<int>`.
  - A flat matrix is the class `SeqMatrix`. It holds a `data` buffer of `sz * sz` cells and a `rows` table of row offsets. A pointer into the buffer is modelled as an offset.
  - The module also has `copy_matrix` and `check_eql`.
- `Kernels` (kernels.dfy): `matrix_multiply`, `matrix_multiply_t` and `matrix_multiply_fast` over `array2<int>`. Each loop of the source is a loop here, or a method holding that loop.
- `SeqKernel` (seq_kernel.dfy): `matrix_multiply_seq` over `SeqMatrix`.
  - The running pointers `rres`, `rmul1` and `rmul2` are offsets advanced by `sz`.
  - Every access goes through them, as in the source.
- `Harness` (harness.dfy): `measure_speed` without its clock and its output. It exists as written and with the flat result buffer cleared.

The tile side `SM` is a parameter `sm > 0`. In the source it is the compile-time constant `CLS / sizeof(double)`.

Two points the model takes from the code:

- `allocate_matrix` clears every cell, but `allocate_matrix_seq` does not clear its buffer, yet `res_seq` is accumulated with `+=` (see Findings).
- Although the kernels visit cells in different orders, every kernel adds the products of one cell in increasing k. The loop invariants of every kernel accumulate `DotRange` in that order.

## Model

| member | source | states |
|---|---|---|
| Matrices.Transpose | mem-speed.c:28-34 | cell (r, c) of the transpose is cell (c, r) of the matrix, for every r, c |
| Matrices.TransposeTwice | mem-speed.c:36-42 | transposing twice gives the matrix back, so after the in-place transpose mul2[j][k] is the original mul2[k][j] |
| Matrices.Product | mem-speed.c:11-21 | the product matrix is square with side n, and its cell (r, c) is the dot product of row r of a with column c of b |
| Matrices.RowStride | mem-speed.c:125-127 | row r + 1 of the flat buffer starts exactly n cells after row r |
| Matrices.RowPointerAdvance | mem-speed.c:75-77 | the closed form of repeated row strides: an offset to (r, c) advanced t times by n is the offset of (r + t, c) |
| Matrices.RowBase | mem-speed.c:126 | row r < n starts at r * n, and its n cells end within the n * n buffer |
| Matrices.Offset | mem-speed.c:75-80 | the offset r * n + c of a cell (r, c) with r, c < n, where the running pointers point, lies inside the n * n buffer |
| Matrices.EarlierRowFirst | mem-speed.c:125-127 | every cell of an earlier row lies at a lower offset than every cell of a later row |
| Matrices.OffsetInjective | mem-speed.c:125-127 | two different cells never share an offset, so the rows of the flat buffer do not overlap |
| Matrices.FlatCells | mem-speed.c:119-130 | the matrix a flat buffer holds has side n, and its cell (r, c) is the buffer cell at offset r * n + c |
| Matrices.DotRangeSplit | mem-speed.c:50-54 | the sum over [lo, hi) is the sum over [lo, mid) plus the sum over [mid, hi), so consecutive k blocks compose |
| Matrices.DotRangeNext | mem-speed.c:54-57 | extending the k range by one adds the next product mul1[i][k] * mul2[k][j] to every cell of the row |
| Matrices.DotSingleCell | mem-speed.c:11-21 | for 1 x 1 matrices the product is the product of the two cells |
| Matrices.IdentityLeft | mem-speed.c:11-21 | the identity times m gives m back, cell by cell |
| Matrices.IdentityPrefix | mem-speed.c:16-18 | the partial sum of the identity row i against m is m[i][j] once k has passed i, and 0 before |
| Matrices.TwoByTwo | mem-speed.c:11-21 | [[1,2],[3,4]] times [[5,6],[7,8]] is [[19,22],[43,50]] |
| Storage.AllocateMatrix | mem-speed.c:104-117 | allocate_matrix returns a fresh sz x sz matrix with every cell zero |
| Storage.RowPointers | mem-speed.c:125-127 | the row table holds row r's offset r * sz for every r < sz |
| Storage.SeqMatrix.constructor | mem-speed.c:119-130 | allocate_matrix_seq as written gives a fresh buffer and row table whose row r starts at r * sz; nothing is promised about the cells |
| Storage.SeqMatrix.Zeroed | mem-speed.c:119-130 | the cleared allocation gives the same layout with every cell zero |
| Storage.ValueAt | mem-speed.c:126 | the buffer cell at offset r * sz + c, where row r's table entry plus c points, is cell (r, c) of the matrix value |
| Storage.CopyMatrix | mem-speed.c:142-150 | after copy_matrix the destination holds exactly the source's cells; only the destination's buffer changes |
| Storage.CheckEql | mem-speed.c:89-102 | None exactly when every cell agrees; otherwise the reported (i, j) is in range, differs, and every cell before it in row-major order agrees |
| Kernels.Min | mem-speed.c:9 | the MIN macro's result is at most each argument and equal to one of them |
| Kernels.MatrixMultiply | mem-speed.c:11-21 | every res[r][c] ends as its initial value plus the dot product of row r of mul1 and column c of mul2; only res changes |
| Kernels.AddDot | mem-speed.c:16-18 | the k loop adds the full dot product to res[i][j] and leaves every other cell unchanged |
| Kernels.MatrixMultiplyT | mem-speed.c:23-43 | mul2 is left transposed, with mul2[r][c] equal to the original mul2[c][r], and res gains the product with the original mul2; only mul2 and res change |
| Kernels.TransposeInPlace | mem-speed.c:28-34 | swapping (i, j) with (j, i) for every j >= i leaves m[r][c] equal to the original m[c][r] for all r, c; the diagonal is unchanged |
| Kernels.MultiplyTransposed | mem-speed.c:36-42 | with mul2 holding the transpose of b, every res[r][c] gains the dot product of row r of mul1 and column c of b; only res changes |
| Kernels.AddDotTransposed | mem-speed.c:38-40 | reading mul2[j][k] adds to res[i][j] the dot product against the transpose of what mul2 holds, and leaves every other cell unchanged |
| Kernels.MatrixMultiplyFast | mem-speed.c:45-64 | every res[r][c] ends as its initial value plus its full dot product, for any sz and any sm > 0, including sz not a multiple of sm |
| Kernels.MultiplyTileAllK | mem-speed.c:50-61 | the k-blocks of the tile at (i, j) add each tile cell's full dot product and touch no cell outside the tile |
| Kernels.TileSplit | mem-speed.c:50-54 | within the tile, the sum up to mid followed by the next k-block is the sum up to the block's end |
| Kernels.MultiplyTile | mem-speed.c:51-60 | one k-block adds the products for k in [k, min(k + sm, sz)) to every tile cell, whose extent is min(sm, sz - i) by min(sm, sz - j) |
| Kernels.MultiplyTileRow | mem-speed.c:53-59 | one row of the tile gains the products of the k-block in increasing k |
| Kernels.AddScaledRow | mem-speed.c:55-58 | the j2 loop adds mul1[r][kk] * mul2[kk][c] to each column c of the tile row and to no other cell |
| SeqKernel.MatrixMultiplySeq | mem-speed.c:66-87 | on the flat layout every cell ends as its initial value plus its full dot product, the same as matrix_multiply; only the result buffer changes |
| SeqKernel.SeqTileAllK | mem-speed.c:73-85 | the k-blocks of a tile add each tile cell's full dot product and touch no other cell |
| SeqKernel.SeqTile | mem-speed.c:74-83 | with rres and rmul1 starting at (i, j) and (i, k) and stepping sz per row, each tile row gains the k-block's products |
| SeqKernel.SeqTileRow | mem-speed.c:76-82 | with rmul2 starting at (k, j) and stepping sz per k2, row r gains the k-block's products in increasing k |
| SeqKernel.SeqScaledRow | mem-speed.c:78-81 | rres[j2] += rmul1[k2] * rmul2[j2] adds mul1[r][kk] * mul2[kk][c] to each column c of the tile row, the offsets addressing exactly those cells |
| Harness.FillMatrix | mem-speed.c:132-140 | the matrix ends holding the supplied values |
| Harness.NaiveThenTiled | mem-speed.c:191-200 | res1 ends as the product, and the check of the tiled result against it reports no mismatch |
| Harness.MismatchIsFirstNonzero | mem-speed.c:204-207 | comparing p with start + p reports exactly the first nonzero cell of start, in row-major order |
| Harness.FlatThenCheck | mem-speed.c:204-207 | res_seq ends as its starting contents plus res1, and the check of the flat result against res1 reports the first cell of res_seq's starting contents that is not zero, and None exactly when all were zero |
| Harness.TransposedThenCheck | mem-speed.c:211-214 | the check of the transposing kernel's result against res1 reports no mismatch |
| Harness.RunKernels | mem-speed.c:184-214 | in the source's order, checks 1 and 3 report no mismatch, res_seq ends as its starting contents plus the product of the filled operands, and check 2 reports the first nonzero starting cell of res_seq |
| Harness.MeasureSpeed | mem-speed.c:167-225 | measure_speed as written: checks 1 and 3 pass; the returned res_seq is fresh and ends as its unknown starting contents plus the product, and check 2 reports the first nonzero starting cell, so it passes exactly when the uncleared buffer happened to hold zeros |
| Harness.UnclearedCellReported | mem-speed.c:120 | a 1 x 1 run whose fresh buffer held 1 has its flat check report cell (0, 0) |
| Harness.MeasureSpeedZeroed | mem-speed.c:167-225 | with res_seq cleared after allocation, all three checks report no mismatch |

## Left out

- Floating point: cells are mathematical integers, so there is no rounding and no NaN. Under `double` the cross-kernel equality still needs every cell's products added in the same order, which is the order the invariants follow.
- `malloc`, `free`, `free_matrix` and `free_matrix_seq` are left out, along with the missing out-of-memory checks. Storage is Dafny arrays allocated with `new`, and a fresh array's contents are unknown, like a fresh `malloc` block.
- `fill_matrix`'s `rand()` and the `time(NULL)` seed: the values are a parameter of `Harness.FillMatrix`.
- `clock()` timing and all `printf` output: `check_eql` returns `Option<(nat, nat)>` instead of printing.
- `main`'s fixed list of sizes and the `CLS`/`getconf` derivation of `SM` are not modelled; `sm` is a parameter.
- Kernels.MatrixMultiplyFast, SeqKernel.MatrixMultiplySeq: require `sm > 0`. `SM` is `CLS / sizeof(double)` in integer division (mem-speed.c:8), which is 0 when `CLS` is below 8, for instance when `getconf` prints 0 for an unknown line size. The loops `i += SM`, `j += SM` and `k += SM` (mem-speed.c:48-50, 71-73) then never end for any `sz > 0`; that non-terminating run is not modelled.
- `size_t` arithmetic is unbounded here. The source's `sz * sz` and `i * sz` cannot overflow for the sizes `main` uses, but the model does not state that bound.
- Kernels.MatrixMultiplyT: requires `mul1 != mul2`; the source does not demand it, and with aliased operands the in-place transpose would also change mul1.
- Kernels and SeqKernel: every kernel requires res to be distinct from both operands, which the driver always provides; aliased results are not modelled.
- Storage.CopyMatrix: models copy_matrix only from a jagged source into a flat destination, the one use in the driver (mem-speed.c:186-187).
- Storage.CheckEql: compares two matrix values, snapshots of the arrays at the point of the call, rather than reading the arrays while it scans.
- Storage.SeqMatrix: the row table is a table of offsets into `data`, so `res[i] = data + i * sz` becomes `rows[i] == i * sz`.

## Findings

| source | as written | input that shows it | evidently intended | confidence | as-written member | corrected member |
|---|---|---|---|---|---|---|
| mem-speed.c:120, 181, 204, 207 | allocate_matrix_seq takes the buffer from malloc and never clears it. res_seq is then accumulated with `+=` by matrix_multiply_seq and compared with res1. | sz = 1, with the fresh res_seq buffer holding 1: res_seq ends as 1 + a*b against res1's a*b, and check_eql reports cell (0, 0) | res_seq starts at zero, as allocate_matrix clears the jagged results, so the flat check passes | not executed; high that the cells are read before any write | Harness.MeasureSpeed, Harness.UnclearedCellReported | Harness.MeasureSpeedZeroed, Storage.SeqMatrix.Zeroed |
