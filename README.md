# Quantized FastGRNN and RNNPool, modelled in Dafny

This project models the fixed-point inference core of EdgeML's C reference:

- `q_fastgrnn` checks that its scratch buffers exist. It then advances a caller-owned hidden state over `steps` input vectors, forward or in reverse, optionally normalising each vector first. Each step applies the FastGRNN update `h' = z*h + (nu + zeta*(1 - z))*tanh(Wx + Uh + Bh)`, with `z = sigmoid(Wx + Uh + Bg)`.
- `q_fastgrnn_lr` is the low-rank variant. It does the same, with each matrix given as a product of two factors and two extra rank-sized buffers.
- `q_rnnpool_block` summarises a square image patch:
  - one cell (`rnn1`) runs along every row and, pixel by pixel, down every column;
  - a second cell (`rnn2`) runs forward and backward over the row summaries and over the column summaries;
  - the four final hidden states are written side by side.

The primitive layer (`m_q_mulvec`, `v_q_add`, `v_q_sigmoid`, …) is modelled as a record of arbitrary functions, `QuantizedPrimitives.Primitives`. Only their length contracts are assumed (`QuantizedPrimitives.Valid`). Every property below therefore holds for every implementation of the fixed-point arithmetic.

Modules:

- `FlatVectors` covers:
  - vectors stored back to back and addressed as `base + k * d`;
  - reversal of such a block;
  - `memset`;
  - the store a primitive makes through its output pointer.
- `QuantizedPrimitives`: the scale records and the primitive layer.
- `QuantizedFastGRNN` has two parts:
  - specification functions: `Features`, `PreActivation`, `Mix`, `Step`, `Schedule` (the feature vectors in the order a run reads them), `Advance` (a fold of `Step`) and `Run`;
  - the two cells as in-place methods over arrays, proved equal to `Run`.
  - Buffer structs are classes with nullable array fields.
  - A missing buffer gives the matching status, and nothing is written.
- `QuantizedRNNPool`: the pooling block.
  - A cell is a function `(hidden, input, inputDims, steps, backward, normalize) -> (hidden', code)`, as the `q_rnn_t` pointer is.
  - The block is an in-place method proved equal to the specification `PoolOutput`.
  - The cell properties the pooling lemmas need are stated as predicates: `PreservesLength`, `ReadsInDirection` and `Resumable`.
- `CellConformance` shows that the FastGRNN cells, bound to their parameters, have those properties. The pooling theorems therefore apply to an RNNPool block built from FastGRNN cells.

## Model

| member | source | states |
|---|---|---|
| QuantizedFastGRNN.BufferStatus | c_reference/src/quantized_fastgrnn.c:98-101 | Missing preComp1, preComp2 or preComp3 gives the shared PRECOMP code. Otherwise a missing normFeatures gives its code. Success exactly when all four are present. Each direction is stated as an iff. |
| QuantizedFastGRNN.LRBufferStatus | c_reference/src/quantized_fastgrnn.c:14-19 | The first missing buffer, in the order preComp1-3, tempLRW, tempLRU, normFeatures, decides the code. Success exactly when all six are present. |
| QuantizedFastGRNN.Offset | c_reference/src/quantized_fastgrnn.c:105 | Step `t` of a `steps`-step run reads vector `steps-1-t` backward and `t` forward, always inside `0..steps-1`. |
| QuantizedFastGRNN.OffsetOrder | c_reference/src/quantized_fastgrnn.c:103-105 | The read order is strictly ascending forward and strictly descending backward. The offset map is its own inverse, so every vector is read exactly once. |
| QuantizedFastGRNN.Features | c_reference/src/quantized_fastgrnn.c:106-120 | The features step reads for vector `o`. Without normalisation they are the input slice at `o*inputDims`. With normalisation they are `hadamard(stdDev_o, sub(input_o, mean_o))`, where `mean` and `stdDev` are indexed by the same offset `o` as the input. The result always has `inputDims` entries. |
| QuantizedFastGRNN.PreActivation | c_reference/src/quantized_fastgrnn.c:123-131 | `add(mulVec(W, x), mulVec(U, h))`. In the low-rank variant (lines 42-56) it is `add(mulVec(W2, mulVec(W1, x)), mulVec(U2, mulVec(U1, h)))`. Each product has one entry per hidden unit, so the result is as long as `h`. |
| QuantizedFastGRNN.UpdateGate | c_reference/src/quantized_fastgrnn.c:134-138 | The gate `z = sigmoid(pre + Bg)`, one entry per hidden unit. |
| QuantizedFastGRNN.Candidate | c_reference/src/quantized_fastgrnn.c:139-142 | The candidate `tanh(pre + Bh)`, computed from the same pre-activation as the gate. |
| QuantizedFastGRNN.CandidateWeight | c_reference/src/quantized_fastgrnn.c:145-154 | `scalarAdd(nu, scalarMul(zeta, scalarSub(qOne, z)))`, in the C order of sub-steps, one entry per hidden unit. |
| QuantizedFastGRNN.Mix | c_reference/src/quantized_fastgrnn.c:134-159 | The new hidden state `add(hadamard(z, h), hadamard(CandidateWeight(z), Candidate(pre)))`, as long as `h`. The gate and candidate both come from the old pre-activation, and `z` multiplies the old hidden state. |
| QuantizedFastGRNN.Step | c_reference/src/quantized_fastgrnn.c:123-159 | One loop body: `Mix` of the old state and its `PreActivation` on the step's features. It keeps the hidden length. |
| QuantizedFastGRNN.Schedule | c_reference/src/quantized_fastgrnn.c:105 | The features of the `steps` steps in the order they are read: entry `t` is `Features` of vector `Offset(steps, t, backward)`. There are exactly `steps` of them, each of `inputDims` entries. |
| QuantizedFastGRNN.Advance | c_reference/src/quantized_fastgrnn.c:103 | The state after one `Step` per feature vector, in order. It keeps the hidden length, and an empty sequence leaves the state alone. |
| QuantizedFastGRNN.Run | c_reference/src/quantized_fastgrnn.c:103-160 | A run keeps the hidden state's length. A run of zero steps leaves the hidden state unchanged. |
| QuantizedFastGRNN.NormalizeFeatures | c_reference/src/quantized_fastgrnn.c:106-116 | `normFeatures` ends as `stdDev_o * (input_o - mean_o)` for vector `o`, in the primitives' order of sub-steps. Entries past `inputDims` are untouched. |
| QuantizedFastGRNN.LoadFeatures | c_reference/src/quantized_fastgrnn.c:106-120 | `normFeatures` ends as the step's features. Without normalisation it is exactly `input[o*inputDims .. o*inputDims+inputDims]`, copied entry by entry. |
| QuantizedFastGRNN.Project | c_reference/src/quantized_fastgrnn.c:123-131 | `preComp1 = W x + U h`. `preComp2` holds `U h`. Nothing past `hiddenDims` changes. |
| QuantizedFastGRNN.ProjectLowRank | c_reference/src/quantized_fastgrnn.c:42-56 | `tempLRW = W1 x`, `tempLRU = U1 h`, `preComp2 = U2 tempLRU` and `preComp1 = W2 (W1 x) + U2 (U1 h)`. Nothing past the used prefixes changes. |
| QuantizedFastGRNN.Gate | c_reference/src/quantized_fastgrnn.c:134-157 | From the pre-activation in `preComp1`: `preComp3 = z*h` with `z = sigmoid(pre + Bg)`, `preComp2 = nu + zeta*(qOne - z)`, and `preComp1` is that weight times `tanh(pre + Bh)`. The hidden state is only read. |
| QuantizedFastGRNN.UpdateHidden | c_reference/src/quantized_fastgrnn.c:133-159 | The hidden state's first `hiddenDims` entries become `Mix` of their old value and the old pre-activation. The rest is untouched. |
| QuantizedFastGRNN.StandardStep | c_reference/src/quantized_fastgrnn.c:103-160 | One loop iteration leaves `Step` of the old hidden state on the features of vector `Offset(steps, t, backward)`. |
| QuantizedFastGRNN.LowRankStep | c_reference/src/quantized_fastgrnn.c:22-85 | The same, for the low-rank cell. |
| QuantizedFastGRNN.QFastGRNN | c_reference/src/quantized_fastgrnn.c:89-162 | The status is `BufferStatus` of the present buffers. On an error, the hidden state and every buffer are unchanged. On success, the hidden state is `Run` of its old value. Entries past `hiddenDims` never change. |
| QuantizedFastGRNN.QFastGRNNLR | c_reference/src/quantized_fastgrnn.c:6-87 | The same for the low-rank cell, with `LRBufferStatus`. |
| QuantizedFastGRNN.AdvanceConcat | c_reference/src/quantized_fastgrnn.c:103 | Advancing over `xs` and then over `ys` equals advancing over `xs + ys`. |
| QuantizedFastGRNN.ScheduleAppend | c_reference/src/quantized_fastgrnn.c:118-119 | The features of `m+n` forward steps over `x + y` are those of `m` steps over `x` followed by those of `n` steps over `y`. |
| QuantizedFastGRNN.RunsCompose | c_reference/src/quantized_fastgrnn.c:103-105 | Without normalisation, a forward run over `x` followed by a forward run over `y` from the state reached equals one run over `x + y`. |
| QuantizedFastGRNN.OneStepIgnoresDirection | c_reference/src/quantized_fastgrnn.c:105 | With `steps == 1` the direction flag does not change the result. |
| QuantizedFastGRNN.BackwardScheduleIsReversed | c_reference/src/quantized_fastgrnn.c:105 | Without normalisation, a backward run reads exactly the vectors a forward run over the block-reversed input reads. |
| QuantizedFastGRNN.BackwardRunIsReversedForwardRun | c_reference/src/quantized_fastgrnn.c:103-120 | Without normalisation, a backward run equals a forward run over the input with its vectors in reverse order. |
| QuantizedFastGRNN.BackwardNormalizedScheduleIsReversed | c_reference/src/quantized_fastgrnn.c:105-115 | With normalisation, `mean` and `stdDev` are indexed by the step's offset, like the input. So the backward schedule equals the forward schedule over the input, the means and the deviations, each block-reversed. |
| QuantizedFastGRNN.AdvanceIgnoresNormalization | c_reference/src/quantized_fastgrnn.c:123-159 | After the features are loaded, a step never reads `mean` or `stdDev`. Advancing with other normalisation vectors gives the same state. |
| QuantizedFastGRNN.BackwardNormalizedRunIsReversedForwardRun | c_reference/src/quantized_fastgrnn.c:103-116 | With normalisation, a backward run equals a forward run over the reversed input with `mean` and `stdDev` reversed too. |
| QuantizedFastGRNN.LowRankStepMatches | c_reference/src/quantized_fastgrnn.c:42-56 | If `W2 W1` and `U2 U1` reproduce `W` and `U` exactly, one low-rank step equals one standard step. |
| QuantizedFastGRNN.LowRankAdvanceMatches | c_reference/src/quantized_fastgrnn.c:22-85 | Under that factorisation, the two cells advance identically over any sequence of features. |
| QuantizedFastGRNN.LowRankMatchesStandard | c_reference/src/quantized_fastgrnn.c:6-87 | Under that factorisation, `q_fastgrnn_lr` and `q_fastgrnn` compute the same hidden state for every input, direction and normalisation flag. |
| FlatVectors.Zeros | c_reference/src/quantized_rnnpool.c:15 | What `memset(…, 0, n * sizeof(INT_T))` leaves: `n` entries, every one zero. |
| FlatVectors.StoreAt | c_reference/src/quantized_fastgrnn.c:158-159 | A primitive storing `v` through its output pointer: `dst[start .. start+|v|]` becomes `v`, and everything before and after is untouched. |
| FlatVectors.Clear | c_reference/src/quantized_rnnpool.c:15 | The first `n` entries become zero and the rest are untouched. |
| FlatVectors.ReverseVectorsAt | c_reference/src/quantized_fastgrnn.c:105 | Vector `k` of the reversed block is vector `n-1-k` of the original. |
| QuantizedRNNPool.PixelsInBounds | c_reference/src/quantized_rnnpool.c:35 | Pixel `(r, c)` and the `n` after it, at `patch + (stride*r + c)*inputDims`, lie inside a patch that covers the block. |
| QuantizedRNNPool.RowSummary | c_reference/src/quantized_rnnpool.c:20-21 | Row `r`'s summary: what `rnn1` leaves in a zeroed `hiddenDims1`-entry state after a forward, unnormalised call of `patchDim` steps over row `r`, read from pixel `stride*r`. |
| QuantizedRNNPool.RowSummaries | c_reference/src/quantized_rnnpool.c:18-22 | The first `k` row summaries side by side, summary `r` at offset `r*hiddenDims1`, `k*hiddenDims1` entries in all. |
| QuantizedRNNPool.ColumnSummary | c_reference/src/quantized_rnnpool.c:33-37 | Column `c`'s summary after `k` pixels: `k` single-step forward calls of `rnn1` on pixels `stride*r + c` for `r = 0 .. k-1`, each resuming from the last, starting from zero. |
| QuantizedRNNPool.ColumnSummaries | c_reference/src/quantized_rnnpool.c:31-38 | The first `k` column summaries side by side, `k*hiddenDims1` entries in all. |
| QuantizedRNNPool.SummaryPass | c_reference/src/quantized_rnnpool.c:25-28 | One `rnn2` call from a zeroed `hiddenDims2`-entry state over `patchDim` summaries of `hiddenDims1` entries, in the given direction, unnormalised. |
| QuantizedRNNPool.PoolOutput | c_reference/src/quantized_rnnpool.c:7-47 | The block's `4*hiddenDims2` outputs: forward and backward over the row summaries, then forward and backward over the column summaries. |
| QuantizedRNNPool.RowRun | c_reference/src/quantized_rnnpool.c:20-21 | On a cleared slot, the call on row `r` leaves row `r`'s summary there. Nothing before or after the slot changes. |
| QuantizedRNNPool.RowPass | c_reference/src/quantized_rnnpool.c:18-22 | `buffer[..patchDim*hiddenDims1]` ends as the row summaries side by side, each a forward `patchDim`-step call from zero. The rest of the buffer is untouched. |
| QuantizedRNNPool.ColumnRun | c_reference/src/quantized_rnnpool.c:33-37 | Column `c`'s slot ends as the fold of single-step calls down the column, starting from zero. Nothing else changes. |
| QuantizedRNNPool.ColumnPass | c_reference/src/quantized_rnnpool.c:31-38 | The buffer ends as the column summaries side by side. The rest of the buffer is untouched. |
| QuantizedRNNPool.SummaryPasses | c_reference/src/quantized_rnnpool.c:25-28 | On two cleared slots at `output + at`, it leaves the forward and then the backward `rnn2` pass over the summaries. Later entries are untouched. |
| QuantizedRNNPool.QRNNPoolBlock | c_reference/src/quantized_rnnpool.c:7-47 | It returns 0. `output[..4*hiddenDims2]` is forward/backward over the row summaries, then forward/backward over the column summaries. The buffer ends holding the column summaries. Nothing past either used prefix changes. |
| QuantizedRNNPool.SummaryAt | c_reference/src/quantized_rnnpool.c:20 | Row or column summary `k` sits at offset `k*hiddenDims1`, where `rnn2` reads it as its `k`-th input vector. |
| QuantizedRNNPool.ColumnPixelAt | c_reference/src/quantized_rnnpool.c:35 | Vector `r` of a column is the pixel at `(stride*r + c)*inputDims`. |
| QuantizedRNNPool.ColumnSummaryIsOneCall | c_reference/src/quantized_rnnpool.c:32-37 | For a resumable cell, the pixel-by-pixel column pass equals one forward call of `patchDim` steps down the column. |
| QuantizedRNNPool.UniformSummariesGiveSymmetricPasses | c_reference/src/quantized_rnnpool.c:25-28 | If all `patchDim` summaries are equal and `rnn2` reads backward as it reads reversed input forward, its forward and backward passes over them agree. |
| QuantizedRNNPool.EqualRowSummariesGiveSymmetricRowPasses | c_reference/src/quantized_rnnpool.c:25-28 | If every row summary is the same, and under the same condition on `rnn2`, output segments 0 and 1 are equal. |
| QuantizedRNNPool.EqualColumnSummariesGiveSymmetricColumnPasses | c_reference/src/quantized_rnnpool.c:41-44 | If every column summary is the same, and under the same condition on `rnn2`, output segments 2 and 3 are equal. |
| QuantizedRNNPool.UniformRowsGiveSymmetricRowPasses | c_reference/src/quantized_rnnpool.c:25-28 | In particular, if every row of the patch is the same, segments 0 and 1 are equal under that condition on `rnn2`. |
| QuantizedRNNPool.UniformColumnsGiveSymmetricColumnPasses | c_reference/src/quantized_rnnpool.c:41-44 | In particular, if every column of the patch is the same, segments 2 and 3 are equal. |
| QuantizedRNNPool.TransposedSummaries | c_reference/src/quantized_rnnpool.c:17-38 | For a resumable `rnn1`, the row summaries of the transposed patch are the column summaries of the patch, and the other way round. |
| QuantizedRNNPool.TransposeSwapsHalves | c_reference/src/quantized_rnnpool.c:24-44 | For a resumable `rnn1`, transposing the patch swaps the row half and the column half of the output. |
| CellConformance.FastGRNNCell | c_reference/src/quantized_fastgrnn.c:89-92 | Called within its contract, `q_fastgrnn` as a pool cell returns `Run` of the hidden state it is given, with code 0. |
| CellConformance.FastGRNNPreservesLength | c_reference/src/quantized_fastgrnn.c:158 | A FastGRNN cell leaves a hidden state of the length it was given. |
| CellConformance.FastGRNNReadsInDirection | c_reference/src/quantized_fastgrnn.c:105 | An unnormalised backward FastGRNN call, the kind the pool makes, equals a forward call over the reversed input. |
| CellConformance.FastGRNNResumesAt | c_reference/src/quantized_fastgrnn.c:103 | `n` steps over `x` followed by one step over `y` equal `n+1` steps over `x + y`. |
| CellConformance.FastGRNNResumable | c_reference/src/quantized_fastgrnn.c:103 | A FastGRNN cell is resumable. |
| CellConformance.FastGRNNColumnSummary | c_reference/src/quantized_rnnpool.c:32-37 | With a FastGRNN `rnn1`, the column pass computes a single forward FastGRNN run down each column. |
| CellConformance.FastGRNNPoolSymmetries | c_reference/src/quantized_rnnpool.c:7-47 | For a block built from FastGRNN cells, transposing the patch swaps the two output halves. With all rows equal, the row passes agree. With all columns equal, the column passes agree. |

## Left out

- The fixed-point primitives (`m_q_mulvec`, `v_q_*`) are not part of this model. They are arbitrary functions, and only their output lengths are assumed. Saturation, shifts and `INT_T`/`ITER_T` widths are therefore not modelled.
- The matrix shapes (`ncols` of `m_q_mulvec`, the row-major layout of `W`, `U` and the factors) are not modelled. A matrix is an opaque vector handed to `mulVec`.
- The numeric values of the `ERR_*_NOT_INIT` codes are defined in a header that is not part of this model. `Status` names them instead.
- All three `preComp` checks share `ERR_PRECOMP_NOT_INIT` (quantized_fastgrnn.c lines 14-16 and 98-100), so a missing `preComp` buffer is not told apart from another. `BufferStatus`/`LRBufferStatus` give the shared code.
- `q_rnnpool_block` discards the codes its cells return and always returns 0, so a failing cell is not reported. `QRNNPoolBlock` never reads a cell's `CellResult.status`.
- QRNNPoolBlock: the cells' parameters, scales and scratch buffers are bound inside the `Cell` value. Their writes to their own scratch buffers are not modelled. The cell is a pure function of the hidden state and input it is given.
- Aliasing in primitive calls that read and write the same buffer (for example `v_q_add(preComp1, …, preComp1)`) is modelled by value. The primitive reads its operands, and the result is then stored. An in-place primitive that overwrites an operand while still reading it is not modelled.
- Buffers are assumed distinct from each other and from the hidden state. For the pool, the output and scratch buffer are assumed distinct. The C code does not check this.
- RunsCompose holds without normalisation only. The normalisation vectors are selected by the step's offset, so a run over `y` after `m` steps over `x` would use `mean`/`stdDev` vectors `0 ..` where the joined run uses `m ..`. The pool makes only unnormalised calls.
- FastGRNNReadsInDirection is stated for unnormalised calls, the only ones the pool makes. With normalisation, a backward call equals a forward call over the reversed input only when `mean` and `stdDev` are reversed too (BackwardNormalizedRunIsReversedForwardRun). A `Cell` does not carry the normalisation vectors, so the predicate cannot say that.
- FastGRNNCell: outside its contract (biases shorter than the hidden state, or an input window shorter than `steps * inputDims`), the C behaviour is undefined. The model returns the hidden state unchanged there, and its contract says nothing about those calls.
- The pool's cell receives the `steps * inputDims` entries it reads, not the pointer into the patch. A cell reading beyond that window is not modelled.
