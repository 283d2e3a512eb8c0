/** The FastGRNN cells as RNNPool cells. `q_rnnpool_block` takes its two cells
    as `q_rnn_t` function pointers; `q_fastgrnn` and `q_fastgrnn_lr` are the
    cells it is built to take. Bound to its primitives, parameters and
    scales, each becomes a `Cell`, and each has the three properties the
    pooling lemmas assume of a cell. */
module CellConformance {
  import opened FlatVectors
  import opened QuantizedPrimitives
  import opened QuantizedFastGRNN
  import opened QuantizedRNNPool

  /** A FastGRNN cell called with ready buffers: the new hidden state a run
      computes, and the success code. Called outside its contract (a hidden
      state longer than the biases, an input window too short), it is taken to
      leave the hidden state alone. */
  ghost function FastGRNNCell(p: Primitives, v: Variant): (cell: Cell)
    ensures forall h, x, d, n, backward, normalize ::
      Fits(p, v, |h|, x, d, n, normalize) ==>
        cell(h, x, d, n, backward, normalize) == CellResult(Run(p, v, h, x, d, n, backward, normalize), 0)
  {
    (h: seq<int>, x: seq<int>, d: nat, n: nat, backward: bool, normalize: bool) =>
      if Fits(p, v, |h|, x, d, n, normalize) then CellResult(Run(p, v, h, x, d, n, backward, normalize), 0)
      else CellResult(h, 0)
  }

  lemma FastGRNNPreservesLength(p: Primitives, v: Variant)
    ensures PreservesLength(FastGRNNCell(p, v))
  {
  }

  /** A backward FastGRNN call is a forward call over the reversed input. */
  lemma FastGRNNReadsInDirection(p: Primitives, v: Variant)
    ensures ReadsInDirection(FastGRNNCell(p, v))
  {
    var cell := FastGRNNCell(p, v);
    forall h, x, d: nat, n: nat | |x| == n * d
      ensures cell(h, x, d, n, true, false).hidden == cell(h, ReverseVectors(x, n, d), d, n, false, false).hidden
    {
      if Fits(p, v, |h|, x, d, n, false) {
        BackwardRunIsReversedForwardRun(p, v, h, x, d, n);
      }
    }
  }

  /** One instance of `Resumable`: `n` steps over `x`, then one over `y`. */
  lemma FastGRNNResumesAt(p: Primitives, v: Variant, h: Vector, x: Vector, y: Vector, d: nat, n: nat)
    requires |x| == n * d && |y| == d
    ensures FastGRNNCell(p, v)(FastGRNNCell(p, v)(h, x, d, n, false, false).hidden, y, d, 1, false, false).hidden
         == FastGRNNCell(p, v)(h, x + y, d, n + 1, false, false).hidden
  {
    var cell := FastGRNNCell(p, v);
    if Fits(p, v, |h|, x, d, n, false) {
      RunsCompose(p, v, h, x, y, d, n, 1);
    } else {
      assert (n + 1) * d == n * d + d;
      assert !Fits(p, v, |h|, y, d, 1, false) && !Fits(p, v, |h|, x + y, d, n + 1, false);
    }
  }

  /** A FastGRNN forward call can be resumed one step at a time. */
  lemma FastGRNNResumable(p: Primitives, v: Variant)
    ensures Resumable(FastGRNNCell(p, v))
  {
    var cell := FastGRNNCell(p, v);
    forall h, x, y, d: nat, n: nat | |x| == n * d && |y| == d
      ensures cell(cell(h, x, d, n, false, false).hidden, y, d, 1, false, false).hidden
           == cell(h, x + y, d, n + 1, false, false).hidden
    {
      FastGRNNResumesAt(p, v, h, x, y, d, n);
    }
  }

  /** Built from FastGRNN cells, the column pass of the pool computes, for
      each column, what one forward FastGRNN run down that column computes. */
  lemma FastGRNNColumnSummary(p: Primitives, v: Variant, patch: seq<int>, inputDims: nat, patchDim: nat, stride: nat,
                              hiddenDims1: nat, c: nat)
    requires PatchCovers(patch, inputDims, patchDim, stride) && c < patchDim
    requires Fits(p, v, hiddenDims1, ColumnPrefix(patch, inputDims, patchDim, stride, c, patchDim), inputDims, patchDim, false)
    ensures PreservesLength(FastGRNNCell(p, v))
    ensures ColumnSummary(patch, inputDims, patchDim, stride, FastGRNNCell(p, v), hiddenDims1, c, patchDim)
         == Run(p, v, Zeros(hiddenDims1), ColumnPrefix(patch, inputDims, patchDim, stride, c, patchDim),
                inputDims, patchDim, false, false)
  {
    FastGRNNResumable(p, v);
    ColumnSummaryIsOneCall(patch, inputDims, patchDim, stride, FastGRNNCell(p, v), hiddenDims1, c, patchDim);
  }

  /** An RNNPool block built from FastGRNN cells: transposing the patch swaps
      the row and column halves of its output; with every row alike the
      forward and backward passes over the rows agree, and with every column
      alike those over the columns do. */
  lemma FastGRNNPoolSymmetries(p: Primitives, v1: Variant, v2: Variant, patch: seq<int>, inputDims: nat, patchDim: nat,
                               stride: nat, hiddenDims1: nat, hiddenDims2: nat)
    requires PatchCovers(patch, inputDims, patchDim, stride)
    ensures PreservesLength(FastGRNNCell(p, v1)) && PreservesLength(FastGRNNCell(p, v2))
    ensures PatchCovers(Transposed(patch, inputDims, patchDim, stride), inputDims, patchDim, patchDim)
    ensures var out := PoolOutput(patch, inputDims, patchDim, stride, FastGRNNCell(p, v1), hiddenDims1,
                                  FastGRNNCell(p, v2), hiddenDims2);
            && PoolOutput(Transposed(patch, inputDims, patchDim, stride), inputDims, patchDim, patchDim,
                          FastGRNNCell(p, v1), hiddenDims1, FastGRNNCell(p, v2), hiddenDims2)
               == out[2 * hiddenDims2 ..] + out[..2 * hiddenDims2]
            && ((forall r :: 0 <= r < patchDim ==>
                   Row(patch, inputDims, patchDim, stride, r) == Row(patch, inputDims, patchDim, stride, 0))
                ==> out[..hiddenDims2] == out[hiddenDims2 .. 2 * hiddenDims2])
            && ((forall c, r :: 0 <= c < patchDim && 0 <= r < patchDim ==>
                   Pixels(patch, inputDims, patchDim, stride, r, c, 1) == Pixels(patch, inputDims, patchDim, stride, r, 0, 1))
                ==> out[2 * hiddenDims2 .. 3 * hiddenDims2] == out[3 * hiddenDims2 .. 4 * hiddenDims2])
  {
    var rnn1, rnn2 := FastGRNNCell(p, v1), FastGRNNCell(p, v2);
    FastGRNNResumable(p, v1);
    FastGRNNReadsInDirection(p, v2);
    TransposeSwapsHalves(patch, inputDims, patchDim, stride, rnn1, hiddenDims1, rnn2, hiddenDims2);
    if forall r :: 0 <= r < patchDim ==> Row(patch, inputDims, patchDim, stride, r) == Row(patch, inputDims, patchDim, stride, 0) {
      UniformRowsGiveSymmetricRowPasses(patch, inputDims, patchDim, stride, rnn1, hiddenDims1, rnn2, hiddenDims2);
    }
    if forall c, r :: 0 <= c < patchDim && 0 <= r < patchDim ==>
         Pixels(patch, inputDims, patchDim, stride, r, c, 1) == Pixels(patch, inputDims, patchDim, stride, r, 0, 1) {
      UniformColumnsGiveSymmetricColumnPasses(patch, inputDims, patchDim, stride, rnn1, hiddenDims1, rnn2, hiddenDims2);
    }
  }
}
