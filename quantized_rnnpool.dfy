/** The RNNPool block (`q_rnnpool_block`): summarises a `patchDim x patchDim`
    patch of an image with two recurrent cells. `rnn1` summarises each row
    and each column of the patch; `rnn2` then runs forward and backward over
    the row summaries and over the column summaries, and the four final
    hidden states, side by side, are the output.

    The cells are arbitrary: each is a function from the hidden state it
    starts from, the input entries it reads and its arguments to the hidden
    state it leaves and the code it returns. */
module QuantizedRNNPool {
  import opened FlatVectors

  /** What one cell call leaves in the hidden state it was given, and the code
      it returns. */
  datatype CellResult = CellResult(hidden: seq<int>, status: int)

  /** `q_rnn_t` with its parameters, buffers and scales bound: from the hidden
      state, the `steps * inputDims` input entries it reads, `inputDims`,
      `steps`, `backward` and `normalize` to the result of the call. */
  type Cell = (seq<int>, seq<int>, nat, nat, bool, bool) -> CellResult

  /** A cell leaves a hidden state of the length it was given. */
  ghost predicate PreservesLength(cell: Cell) {
    forall h, x, d, n, backward, normalize :: |cell(h, x, d, n, backward, normalize).hidden| == |h|
  }

  /** A backward call computes what a forward call over the same vectors in
      reverse order computes. */
  ghost predicate ReadsInDirection(cell: Cell) {
    forall h, x, d: nat, n: nat | |x| == n * d ::
      cell(h, x, d, n, true, false).hidden == cell(h, ReverseVectors(x, n, d), d, n, false, false).hidden
  }

  /** A forward call can be resumed: no steps leave the state alone, and `n`
      steps followed by one more step on `y` are `n + 1` steps over `x + y`. */
  ghost predicate Resumable(cell: Cell) {
    && (forall h, x, d :: cell(h, x, d, 0, false, false).hidden == h)
    && (forall h, x, y, d: nat, n: nat {:trigger cell(cell(h, x, d, n, false, false).hidden, y, d, 1, false, false)}
          | |x| == n * d && |y| == d ::
          cell(cell(h, x, d, n, false, false).hidden, y, d, 1, false, false).hidden
          == cell(h, x + y, d, n + 1, false, false).hidden)
  }

  // ---------------------------------------------------------------------
  // The patch

  /** The patch holds every pixel the block reads: `patchDim` rows of
      `patchDim` pixels of `inputDims` entries, row `r` starting at pixel
      `stride * r`. */
  predicate PatchCovers(patch: seq<int>, inputDims: nat, patchDim: nat, stride: nat) {
    patchDim == 0 || (stride * (patchDim - 1) + patchDim) * inputDims <= |patch|
  }

  lemma PixelsInBounds(patch: seq<int>, inputDims: nat, patchDim: nat, stride: nat, r: nat, c: nat, n: nat)
    requires PatchCovers(patch, inputDims, patchDim, stride) && r < patchDim && c + n <= patchDim
    ensures (stride * r + c) * inputDims + n * inputDims <= |patch|
  {
    MulMonotone(r, patchDim - 1, stride);
    assert stride * r + c + n <= stride * (patchDim - 1) + patchDim;
    MulMonotone(stride * r + c + n, stride * (patchDim - 1) + patchDim, inputDims);
    assert (stride * r + c + n) * inputDims == (stride * r + c) * inputDims + n * inputDims;
  }

  /** The `n` pixels of row `r` from column `c` on, read from
      `patch + (stride * r + c) * inputDims`. */
  function Pixels(patch: seq<int>, inputDims: nat, patchDim: nat, stride: nat, r: nat, c: nat, n: nat): (x: seq<int>)
    requires PatchCovers(patch, inputDims, patchDim, stride) && r < patchDim && c + n <= patchDim
    ensures |x| == n * inputDims
  {
    PixelsInBounds(patch, inputDims, patchDim, stride, r, c, n);
    var start := (stride * r + c) * inputDims;
    patch[start .. start + n * inputDims]
  }

  /** Row `r` of the patch, left to right. */
  function Row(patch: seq<int>, inputDims: nat, patchDim: nat, stride: nat, r: nat): (x: seq<int>)
    requires PatchCovers(patch, inputDims, patchDim, stride) && r < patchDim
    ensures |x| == patchDim * inputDims
  {
    Pixels(patch, inputDims, patchDim, stride, r, 0, patchDim)
  }

  /** The first `k` pixels of column `c`, top to bottom. */
  function ColumnPrefix(patch: seq<int>, inputDims: nat, patchDim: nat, stride: nat, c: nat, k: nat): (x: seq<int>)
    requires PatchCovers(patch, inputDims, patchDim, stride) && c < patchDim && k <= patchDim
    ensures |x| == k * inputDims
  {
    Flatten(seq(k, r requires 0 <= r < k => Pixels(patch, inputDims, patchDim, stride, r, c, 1)), inputDims)
  }

  // ---------------------------------------------------------------------
  // What the block computes

  /** The summary of row `r`: a forward call of `patchDim` steps over the row
      from a zero state. */
  function RowSummary(patch: seq<int>, inputDims: nat, patchDim: nat, stride: nat,
                      rnn1: Cell, hiddenDims1: nat, r: nat): (s: seq<int>)
    requires PatchCovers(patch, inputDims, patchDim, stride) && r < patchDim
    requires PreservesLength(rnn1)
    ensures |s| == hiddenDims1
  {
    rnn1(Zeros(hiddenDims1), Row(patch, inputDims, patchDim, stride, r), inputDims, patchDim, false, false).hidden
  }

  /** The summaries of the first `k` rows, side by side. */
  function RowSummaries(patch: seq<int>, inputDims: nat, patchDim: nat, stride: nat,
                        rnn1: Cell, hiddenDims1: nat, k: nat): (s: seq<int>)
    requires PatchCovers(patch, inputDims, patchDim, stride) && k <= patchDim
    requires PreservesLength(rnn1)
    ensures |s| == k * hiddenDims1
  {
    Flatten(seq(k, r requires 0 <= r < k => RowSummary(patch, inputDims, patchDim, stride, rnn1, hiddenDims1, r)),
            hiddenDims1)
  }

  /** The state of column `c`'s summary after its first `k` pixels: one
      single-step forward call per pixel, each resuming from the last. */
  function ColumnSummary(patch: seq<int>, inputDims: nat, patchDim: nat, stride: nat,
                         rnn1: Cell, hiddenDims1: nat, c: nat, k: nat): (s: seq<int>)
    requires PatchCovers(patch, inputDims, patchDim, stride) && c < patchDim && k <= patchDim
    requires PreservesLength(rnn1)
    ensures |s| == hiddenDims1
    decreases k
  {
    if k == 0 then Zeros(hiddenDims1)
    else
      rnn1(ColumnSummary(patch, inputDims, patchDim, stride, rnn1, hiddenDims1, c, k - 1),
           Pixels(patch, inputDims, patchDim, stride, k - 1, c, 1), inputDims, 1, false, false).hidden
  }

  /** The summaries of the first `k` columns, side by side. */
  function ColumnSummaries(patch: seq<int>, inputDims: nat, patchDim: nat, stride: nat,
                           rnn1: Cell, hiddenDims1: nat, k: nat): (s: seq<int>)
    requires PatchCovers(patch, inputDims, patchDim, stride) && k <= patchDim
    requires PreservesLength(rnn1)
    ensures |s| == k * hiddenDims1
  {
    Flatten(seq(k, c requires 0 <= c < k =>
                  ColumnSummary(patch, inputDims, patchDim, stride, rnn1, hiddenDims1, c, patchDim)),
            hiddenDims1)
  }

  /** One pass of `rnn2` over `patchDim` summaries, from a zero state. */
  function SummaryPass(rnn2: Cell, hiddenDims2: nat, summaries: seq<int>, hiddenDims1: nat, patchDim: nat,
                       backward: bool): (s: seq<int>)
    requires PreservesLength(rnn2)
    ensures |s| == hiddenDims2
  {
    rnn2(Zeros(hiddenDims2), summaries, hiddenDims1, patchDim, backward, false).hidden
  }

  /** The block's output: the forward and backward passes over the row
      summaries, then over the column summaries. */
  function PoolOutput(patch: seq<int>, inputDims: nat, patchDim: nat, stride: nat,
                      rnn1: Cell, hiddenDims1: nat, rnn2: Cell, hiddenDims2: nat): (out: seq<int>)
    requires PatchCovers(patch, inputDims, patchDim, stride)
    requires PreservesLength(rnn1) && PreservesLength(rnn2)
    ensures |out| == 4 * hiddenDims2
  {
    var rows := RowSummaries(patch, inputDims, patchDim, stride, rnn1, hiddenDims1, patchDim);
    var columns := ColumnSummaries(patch, inputDims, patchDim, stride, rnn1, hiddenDims1, patchDim);
    SummaryPass(rnn2, hiddenDims2, rows, hiddenDims1, patchDim, false)
    + SummaryPass(rnn2, hiddenDims2, rows, hiddenDims1, patchDim, true)
    + SummaryPass(rnn2, hiddenDims2, columns, hiddenDims1, patchDim, false)
    + SummaryPass(rnn2, hiddenDims2, columns, hiddenDims1, patchDim, true)
  }

  // ---------------------------------------------------------------------
  // Properties of the block

  /** Summary `k` of either pass sits at offset `k * hiddenDims1`. */
  lemma SummaryAt(patch: seq<int>, inputDims: nat, patchDim: nat, stride: nat,
                  rnn1: Cell, hiddenDims1: nat, k: nat)
    requires PatchCovers(patch, inputDims, patchDim, stride) && k < patchDim
    requires PreservesLength(rnn1)
    ensures VecAt(RowSummaries(patch, inputDims, patchDim, stride, rnn1, hiddenDims1, patchDim), patchDim, hiddenDims1, k)
         == RowSummary(patch, inputDims, patchDim, stride, rnn1, hiddenDims1, k)
    ensures VecAt(ColumnSummaries(patch, inputDims, patchDim, stride, rnn1, hiddenDims1, patchDim), patchDim, hiddenDims1, k)
         == ColumnSummary(patch, inputDims, patchDim, stride, rnn1, hiddenDims1, k, patchDim)
  {
    FlattenAt(seq(patchDim, r requires 0 <= r < patchDim =>
                RowSummary(patch, inputDims, patchDim, stride, rnn1, hiddenDims1, r)), hiddenDims1, k);
    FlattenAt(seq(patchDim, c requires 0 <= c < patchDim =>
                ColumnSummary(patch, inputDims, patchDim, stride, rnn1, hiddenDims1, c, patchDim)), hiddenDims1, k);
  }

  /** Pixel `r` of a column prefix is the pixel in row `r`. */
  lemma ColumnPixelAt(patch: seq<int>, inputDims: nat, patchDim: nat, stride: nat, c: nat, k: nat, r: nat)
    requires PatchCovers(patch, inputDims, patchDim, stride) && c < patchDim && r < k <= patchDim
    ensures VecAt(ColumnPrefix(patch, inputDims, patchDim, stride, c, k), k, inputDims, r)
         == Pixels(patch, inputDims, patchDim, stride, r, c, 1)
  {
    FlattenAt(seq(k, r' requires 0 <= r' < k => Pixels(patch, inputDims, patchDim, stride, r', c, 1)), inputDims, r);
  }

  /** With a resumable `rnn1`, the pixel-by-pixel column pass computes what one
      forward call of `patchDim` steps over the column would. */
  lemma {:induction false} ColumnSummaryIsOneCall(patch: seq<int>, inputDims: nat, patchDim: nat, stride: nat,
                                                 rnn1: Cell, hiddenDims1: nat, c: nat, k: nat)
    requires PatchCovers(patch, inputDims, patchDim, stride) && c < patchDim && k <= patchDim
    requires PreservesLength(rnn1) && Resumable(rnn1)
    ensures ColumnSummary(patch, inputDims, patchDim, stride, rnn1, hiddenDims1, c, k)
         == rnn1(Zeros(hiddenDims1), ColumnPrefix(patch, inputDims, patchDim, stride, c, k), inputDims, k, false, false).hidden
    decreases k
  {
    var col := ColumnPrefix(patch, inputDims, patchDim, stride, c, k);
    if k > 0 {
      ColumnSummaryIsOneCall(patch, inputDims, patchDim, stride, rnn1, hiddenDims1, c, k - 1);
      var pixels := seq(k, r requires 0 <= r < k => Pixels(patch, inputDims, patchDim, stride, r, c, 1));
      assert pixels[..k - 1] == seq(k - 1, r requires 0 <= r < k - 1 => Pixels(patch, inputDims, patchDim, stride, r, c, 1));
      assert col == ColumnPrefix(patch, inputDims, patchDim, stride, c, k - 1)
                    + Pixels(patch, inputDims, patchDim, stride, k - 1, c, 1);
    }
  }

  /** When the `patchDim` summaries are all the same and `rnn2` reads backward
      as it reads a reversed input forward, its forward and backward passes
      over them agree. */
  lemma UniformSummariesGiveSymmetricPasses(rnn2: Cell, hiddenDims2: nat, summaries: seq<int>, hiddenDims1: nat,
                                            patchDim: nat)
    requires PreservesLength(rnn2) && ReadsInDirection(rnn2)
    requires |summaries| == patchDim * hiddenDims1
    requires forall k :: 0 <= k < patchDim ==>
               VecAt(summaries, patchDim, hiddenDims1, k) == VecAt(summaries, patchDim, hiddenDims1, 0)
    ensures SummaryPass(rnn2, hiddenDims2, summaries, hiddenDims1, patchDim, false)
         == SummaryPass(rnn2, hiddenDims2, summaries, hiddenDims1, patchDim, true)
  {
    ReverseUniform(summaries, patchDim, hiddenDims1);
  }

  /** When every row summary is the same, the forward and backward passes
      over the row summaries agree. */
  lemma EqualRowSummariesGiveSymmetricRowPasses(patch: seq<int>, inputDims: nat, patchDim: nat, stride: nat,
                                                rnn1: Cell, hiddenDims1: nat, rnn2: Cell, hiddenDims2: nat)
    requires PatchCovers(patch, inputDims, patchDim, stride)
    requires PreservesLength(rnn1) && PreservesLength(rnn2) && ReadsInDirection(rnn2)
    requires forall r :: 0 <= r < patchDim ==>
               RowSummary(patch, inputDims, patchDim, stride, rnn1, hiddenDims1, r)
               == RowSummary(patch, inputDims, patchDim, stride, rnn1, hiddenDims1, 0)
    ensures var out := PoolOutput(patch, inputDims, patchDim, stride, rnn1, hiddenDims1, rnn2, hiddenDims2);
            out[..hiddenDims2] == out[hiddenDims2 .. 2 * hiddenDims2]
  {
    var rows := RowSummaries(patch, inputDims, patchDim, stride, rnn1, hiddenDims1, patchDim);
    forall k | 0 <= k < patchDim
      ensures VecAt(rows, patchDim, hiddenDims1, k) == VecAt(rows, patchDim, hiddenDims1, 0)
    {
      SummaryAt(patch, inputDims, patchDim, stride, rnn1, hiddenDims1, k);
      SummaryAt(patch, inputDims, patchDim, stride, rnn1, hiddenDims1, 0);
    }
    UniformSummariesGiveSymmetricPasses(rnn2, hiddenDims2, rows, hiddenDims1, patchDim);
  }

  /** In particular when every row of the patch is the same. */
  lemma UniformRowsGiveSymmetricRowPasses(patch: seq<int>, inputDims: nat, patchDim: nat, stride: nat,
                                          rnn1: Cell, hiddenDims1: nat, rnn2: Cell, hiddenDims2: nat)
    requires PatchCovers(patch, inputDims, patchDim, stride)
    requires PreservesLength(rnn1) && PreservesLength(rnn2) && ReadsInDirection(rnn2)
    requires forall r :: 0 <= r < patchDim ==> Row(patch, inputDims, patchDim, stride, r) == Row(patch, inputDims, patchDim, stride, 0)
    ensures var out := PoolOutput(patch, inputDims, patchDim, stride, rnn1, hiddenDims1, rnn2, hiddenDims2);
            out[..hiddenDims2] == out[hiddenDims2 .. 2 * hiddenDims2]
  {
    EqualRowSummariesGiveSymmetricRowPasses(patch, inputDims, patchDim, stride, rnn1, hiddenDims1, rnn2, hiddenDims2);
  }

  /** When every column summary is the same, the forward and backward passes
      over the column summaries agree. */
  lemma EqualColumnSummariesGiveSymmetricColumnPasses(patch: seq<int>, inputDims: nat, patchDim: nat, stride: nat,
                                                      rnn1: Cell, hiddenDims1: nat, rnn2: Cell, hiddenDims2: nat)
    requires PatchCovers(patch, inputDims, patchDim, stride)
    requires PreservesLength(rnn1) && PreservesLength(rnn2) && ReadsInDirection(rnn2)
    requires forall c :: 0 <= c < patchDim ==>
               ColumnSummary(patch, inputDims, patchDim, stride, rnn1, hiddenDims1, c, patchDim)
               == ColumnSummary(patch, inputDims, patchDim, stride, rnn1, hiddenDims1, 0, patchDim)
    ensures var out := PoolOutput(patch, inputDims, patchDim, stride, rnn1, hiddenDims1, rnn2, hiddenDims2);
            out[2 * hiddenDims2 .. 3 * hiddenDims2] == out[3 * hiddenDims2 .. 4 * hiddenDims2]
  {
    var columns := ColumnSummaries(patch, inputDims, patchDim, stride, rnn1, hiddenDims1, patchDim);
    forall c | 0 <= c < patchDim
      ensures VecAt(columns, patchDim, hiddenDims1, c) == VecAt(columns, patchDim, hiddenDims1, 0)
    {
      SummaryAt(patch, inputDims, patchDim, stride, rnn1, hiddenDims1, c);
      SummaryAt(patch, inputDims, patchDim, stride, rnn1, hiddenDims1, 0);
    }
    UniformSummariesGiveSymmetricPasses(rnn2, hiddenDims2, columns, hiddenDims1, patchDim);
  }

  /** In particular when every column of the patch is the same. */
  lemma UniformColumnsGiveSymmetricColumnPasses(patch: seq<int>, inputDims: nat, patchDim: nat, stride: nat,
                                                rnn1: Cell, hiddenDims1: nat, rnn2: Cell, hiddenDims2: nat)
    requires PatchCovers(patch, inputDims, patchDim, stride)
    requires PreservesLength(rnn1) && PreservesLength(rnn2) && ReadsInDirection(rnn2)
    requires forall c, r :: 0 <= c < patchDim && 0 <= r < patchDim ==>
               Pixels(patch, inputDims, patchDim, stride, r, c, 1) == Pixels(patch, inputDims, patchDim, stride, r, 0, 1)
    ensures var out := PoolOutput(patch, inputDims, patchDim, stride, rnn1, hiddenDims1, rnn2, hiddenDims2);
            out[2 * hiddenDims2 .. 3 * hiddenDims2] == out[3 * hiddenDims2 .. 4 * hiddenDims2]
  {
    forall c | 0 <= c < patchDim
      ensures ColumnSummary(patch, inputDims, patchDim, stride, rnn1, hiddenDims1, c, patchDim)
           == ColumnSummary(patch, inputDims, patchDim, stride, rnn1, hiddenDims1, 0, patchDim)
    {
      SameColumnSummaries(patch, inputDims, patchDim, stride, rnn1, hiddenDims1, c, patchDim);
    }
    EqualColumnSummariesGiveSymmetricColumnPasses(patch, inputDims, patchDim, stride, rnn1, hiddenDims1, rnn2, hiddenDims2);
  }

  /** A column whose first `k` pixels are those of column 0 has column 0's summary. */
  lemma {:induction false} SameColumnSummaries(patch: seq<int>, inputDims: nat, patchDim: nat, stride: nat,
                                              rnn1: Cell, hiddenDims1: nat, c: nat, k: nat)
    requires PatchCovers(patch, inputDims, patchDim, stride) && c < patchDim && k <= patchDim
    requires PreservesLength(rnn1)
    requires forall r :: 0 <= r < k ==>
               Pixels(patch, inputDims, patchDim, stride, r, c, 1) == Pixels(patch, inputDims, patchDim, stride, r, 0, 1)
    ensures ColumnSummary(patch, inputDims, patchDim, stride, rnn1, hiddenDims1, c, k)
         == ColumnSummary(patch, inputDims, patchDim, stride, rnn1, hiddenDims1, 0, k)
    decreases k
  {
    if k > 0 {
      SameColumnSummaries(patch, inputDims, patchDim, stride, rnn1, hiddenDims1, c, k - 1);
    }
  }

  /** Pixel `c` of row `r` is the pixel in column `c` of that row. */
  lemma RowPixelAt(patch: seq<int>, inputDims: nat, patchDim: nat, stride: nat, r: nat, c: nat)
    requires PatchCovers(patch, inputDims, patchDim, stride) && r < patchDim && c < patchDim
    ensures VecAt(Row(patch, inputDims, patchDim, stride, r), patchDim, inputDims, c)
         == Pixels(patch, inputDims, patchDim, stride, r, c, 1)
  {
    var start := (stride * r + 0) * inputDims;
    PixelsInBounds(patch, inputDims, patchDim, stride, r, 0, patchDim);
    VecAtSlice(patch, start, patchDim, inputDims, c);
    Distribute(stride * r, c, inputDims);
  }

  /** The patch with rows and columns exchanged, stored with a row stride of
      `patchDim` pixels: its row `c` is column `c` of `patch`. */
  function Transposed(patch: seq<int>, inputDims: nat, patchDim: nat, stride: nat): (t: seq<int>)
    requires PatchCovers(patch, inputDims, patchDim, stride)
    ensures |t| == patchDim * (patchDim * inputDims)
  {
    Flatten(seq(patchDim, c requires 0 <= c < patchDim => ColumnPrefix(patch, inputDims, patchDim, stride, c, patchDim)),
            patchDim * inputDims)
  }

  lemma TransposedCovers(patch: seq<int>, inputDims: nat, patchDim: nat, stride: nat)
    requires PatchCovers(patch, inputDims, patchDim, stride)
    ensures PatchCovers(Transposed(patch, inputDims, patchDim, stride), inputDims, patchDim, patchDim)
  {
    if patchDim > 0 {
      assert patchDim * (patchDim - 1) + patchDim == patchDim * patchDim;
      assert (patchDim * patchDim) * inputDims == patchDim * (patchDim * inputDims);
    }
  }

  lemma RowOffset(patchDim: nat, r: nat, inputDims: nat)
    ensures (patchDim * r + 0) * inputDims == r * (patchDim * inputDims)
  {
  }

  /** Row `r` of the transposed patch is column `r` of the patch. */
  lemma TransposedRow(patch: seq<int>, inputDims: nat, patchDim: nat, stride: nat, r: nat)
    requires PatchCovers(patch, inputDims, patchDim, stride) && r < patchDim
    ensures PatchCovers(Transposed(patch, inputDims, patchDim, stride), inputDims, patchDim, patchDim)
    ensures Row(Transposed(patch, inputDims, patchDim, stride), inputDims, patchDim, patchDim, r)
         == ColumnPrefix(patch, inputDims, patchDim, stride, r, patchDim)
  {
    TransposedCovers(patch, inputDims, patchDim, stride);
    var columns := seq(patchDim, c requires 0 <= c < patchDim => ColumnPrefix(patch, inputDims, patchDim, stride, c, patchDim));
    FlattenAt(columns, patchDim * inputDims, r);
    RowOffset(patchDim, r, inputDims);
  }

  /** Pixel `c` of row `r` of the transposed patch is pixel `r` of row `c` of the patch. */
  lemma TransposedPixel(patch: seq<int>, inputDims: nat, patchDim: nat, stride: nat, r: nat, c: nat)
    requires PatchCovers(patch, inputDims, patchDim, stride) && r < patchDim && c < patchDim
    ensures PatchCovers(Transposed(patch, inputDims, patchDim, stride), inputDims, patchDim, patchDim)
    ensures Pixels(Transposed(patch, inputDims, patchDim, stride), inputDims, patchDim, patchDim, r, c, 1)
         == Pixels(patch, inputDims, patchDim, stride, c, r, 1)
  {
    TransposedRow(patch, inputDims, patchDim, stride, r);
    RowPixelAt(Transposed(patch, inputDims, patchDim, stride), inputDims, patchDim, patchDim, r, c);
    ColumnPixelAt(patch, inputDims, patchDim, stride, r, patchDim, c);
  }

  /** A row is its pixels, left to right. */
  lemma RowIsItsPixels(patch: seq<int>, inputDims: nat, patchDim: nat, stride: nat, r: nat)
    requires PatchCovers(patch, inputDims, patchDim, stride) && r < patchDim
    ensures Row(patch, inputDims, patchDim, stride, r)
         == Flatten(seq(patchDim, c requires 0 <= c < patchDim => Pixels(patch, inputDims, patchDim, stride, r, c, 1)),
                    inputDims)
  {
    var pixels := seq(patchDim, c requires 0 <= c < patchDim => Pixels(patch, inputDims, patchDim, stride, r, c, 1));
    forall c | 0 <= c < patchDim
      ensures VecAt(Row(patch, inputDims, patchDim, stride, r), patchDim, inputDims, c)
           == VecAt(Flatten(pixels, inputDims), patchDim, inputDims, c)
    {
      RowPixelAt(patch, inputDims, patchDim, stride, r, c);
      FlattenAt(pixels, inputDims, c);
    }
    BlocksEqual(Row(patch, inputDims, patchDim, stride, r), Flatten(pixels, inputDims), patchDim, inputDims);
  }

  /** The row summaries of the transposed patch are the column summaries of
      the patch, and the other way round. */
  lemma TransposedSummaries(patch: seq<int>, inputDims: nat, patchDim: nat, stride: nat, rnn1: Cell, hiddenDims1: nat)
    requires PatchCovers(patch, inputDims, patchDim, stride)
    requires PreservesLength(rnn1) && Resumable(rnn1)
    ensures PatchCovers(Transposed(patch, inputDims, patchDim, stride), inputDims, patchDim, patchDim)
    ensures RowSummaries(Transposed(patch, inputDims, patchDim, stride), inputDims, patchDim, patchDim, rnn1, hiddenDims1, patchDim)
         == ColumnSummaries(patch, inputDims, patchDim, stride, rnn1, hiddenDims1, patchDim)
    ensures ColumnSummaries(Transposed(patch, inputDims, patchDim, stride), inputDims, patchDim, patchDim, rnn1, hiddenDims1, patchDim)
         == RowSummaries(patch, inputDims, patchDim, stride, rnn1, hiddenDims1, patchDim)
  {
    var t := Transposed(patch, inputDims, patchDim, stride);
    TransposedCovers(patch, inputDims, patchDim, stride);
    forall k | 0 <= k < patchDim
      ensures RowSummary(t, inputDims, patchDim, patchDim, rnn1, hiddenDims1, k)
           == ColumnSummary(patch, inputDims, patchDim, stride, rnn1, hiddenDims1, k, patchDim)
      ensures ColumnSummary(t, inputDims, patchDim, patchDim, rnn1, hiddenDims1, k, patchDim)
           == RowSummary(patch, inputDims, patchDim, stride, rnn1, hiddenDims1, k)
    {
      TransposedRow(patch, inputDims, patchDim, stride, k);
      ColumnSummaryIsOneCall(patch, inputDims, patchDim, stride, rnn1, hiddenDims1, k, patchDim);
      ColumnSummaryIsOneCall(t, inputDims, patchDim, patchDim, rnn1, hiddenDims1, k, patchDim);
      TransposedColumn(patch, inputDims, patchDim, stride, k);
    }
    assert seq(patchDim, r requires 0 <= r < patchDim => RowSummary(t, inputDims, patchDim, patchDim, rnn1, hiddenDims1, r))
        == seq(patchDim, c requires 0 <= c < patchDim => ColumnSummary(patch, inputDims, patchDim, stride, rnn1, hiddenDims1, c, patchDim));
    assert seq(patchDim, c requires 0 <= c < patchDim => ColumnSummary(t, inputDims, patchDim, patchDim, rnn1, hiddenDims1, c, patchDim))
        == seq(patchDim, r requires 0 <= r < patchDim => RowSummary(patch, inputDims, patchDim, stride, rnn1, hiddenDims1, r));
  }

  /** Column `c` of the transposed patch is row `c` of the patch. */
  lemma TransposedColumn(patch: seq<int>, inputDims: nat, patchDim: nat, stride: nat, c: nat)
    requires PatchCovers(patch, inputDims, patchDim, stride) && c < patchDim
    ensures PatchCovers(Transposed(patch, inputDims, patchDim, stride), inputDims, patchDim, patchDim)
    ensures ColumnPrefix(Transposed(patch, inputDims, patchDim, stride), inputDims, patchDim, patchDim, c, patchDim)
         == Row(patch, inputDims, patchDim, stride, c)
  {
    var t := Transposed(patch, inputDims, patchDim, stride);
    TransposedCovers(patch, inputDims, patchDim, stride);
    forall r | 0 <= r < patchDim
      ensures Pixels(t, inputDims, patchDim, patchDim, r, c, 1) == Pixels(patch, inputDims, patchDim, stride, c, r, 1)
    {
      TransposedPixel(patch, inputDims, patchDim, stride, r, c);
    }
    assert seq(patchDim, r requires 0 <= r < patchDim => Pixels(t, inputDims, patchDim, patchDim, r, c, 1))
        == seq(patchDim, r requires 0 <= r < patchDim => Pixels(patch, inputDims, patchDim, stride, c, r, 1));
    RowIsItsPixels(patch, inputDims, patchDim, stride, c);
  }

  /** With a resumable `rnn1`, transposing the patch exchanges the two halves
      of the output: the passes over the row summaries and the passes over
      the column summaries trade places. */
  lemma TransposeSwapsHalves(patch: seq<int>, inputDims: nat, patchDim: nat, stride: nat,
                             rnn1: Cell, hiddenDims1: nat, rnn2: Cell, hiddenDims2: nat)
    requires PatchCovers(patch, inputDims, patchDim, stride)
    requires PreservesLength(rnn1) && PreservesLength(rnn2) && Resumable(rnn1)
    ensures PatchCovers(Transposed(patch, inputDims, patchDim, stride), inputDims, patchDim, patchDim)
    ensures var out := PoolOutput(patch, inputDims, patchDim, stride, rnn1, hiddenDims1, rnn2, hiddenDims2);
            PoolOutput(Transposed(patch, inputDims, patchDim, stride), inputDims, patchDim, patchDim,
                       rnn1, hiddenDims1, rnn2, hiddenDims2)
            == out[2 * hiddenDims2 ..] + out[..2 * hiddenDims2]
  {
    TransposedSummaries(patch, inputDims, patchDim, stride, rnn1, hiddenDims1);
  }

  // ---------------------------------------------------------------------
  // The in-place implementation

  lemma RowSummariesGrow(patch: seq<int>, inputDims: nat, patchDim: nat, stride: nat,
                         rnn1: Cell, hiddenDims1: nat, r: nat)
    requires PatchCovers(patch, inputDims, patchDim, stride) && r < patchDim
    requires PreservesLength(rnn1)
    ensures RowSummaries(patch, inputDims, patchDim, stride, rnn1, hiddenDims1, r + 1)
         == RowSummaries(patch, inputDims, patchDim, stride, rnn1, hiddenDims1, r)
            + RowSummary(patch, inputDims, patchDim, stride, rnn1, hiddenDims1, r)
  {
    var summaries := seq(r + 1, r' requires 0 <= r' < r + 1 =>
                           RowSummary(patch, inputDims, patchDim, stride, rnn1, hiddenDims1, r'));
    assert summaries[..r] == seq(r, r' requires 0 <= r' < r =>
                                   RowSummary(patch, inputDims, patchDim, stride, rnn1, hiddenDims1, r'));
  }

  lemma ColumnSummariesGrow(patch: seq<int>, inputDims: nat, patchDim: nat, stride: nat,
                            rnn1: Cell, hiddenDims1: nat, c: nat)
    requires PatchCovers(patch, inputDims, patchDim, stride) && c < patchDim
    requires PreservesLength(rnn1)
    ensures ColumnSummaries(patch, inputDims, patchDim, stride, rnn1, hiddenDims1, c + 1)
         == ColumnSummaries(patch, inputDims, patchDim, stride, rnn1, hiddenDims1, c)
            + ColumnSummary(patch, inputDims, patchDim, stride, rnn1, hiddenDims1, c, patchDim)
  {
    var summaries := seq(c + 1, c' requires 0 <= c' < c + 1 =>
                           ColumnSummary(patch, inputDims, patchDim, stride, rnn1, hiddenDims1, c', patchDim));
    assert summaries[..c] == seq(c, c' requires 0 <= c' < c =>
                                   ColumnSummary(patch, inputDims, patchDim, stride, rnn1, hiddenDims1, c', patchDim));
  }

  /** Row `r`'s forward call of `rnn1`, on the cleared summary at `buffer + start`. */
  method RowRun(patch: seq<int>, inputDims: nat, patchDim: nat, stride: nat,
                rnn1: Cell, hiddenDims1: nat, r: nat, buffer: array<int>, start: nat)
    requires PatchCovers(patch, inputDims, patchDim, stride) && PreservesLength(rnn1) && r < patchDim
    requires start + hiddenDims1 <= buffer.Length
    requires buffer[start .. start + hiddenDims1] == Zeros(hiddenDims1)
    modifies buffer
    ensures buffer[..start + hiddenDims1]
         == old(buffer[..start]) + RowSummary(patch, inputDims, patchDim, stride, rnn1, hiddenDims1, r)
    ensures buffer[start + hiddenDims1 ..] == old(buffer[start + hiddenDims1 ..])
  {
    var result := rnn1(buffer[start .. start + hiddenDims1], Pixels(patch, inputDims, patchDim, stride, r, 0, patchDim),
                       inputDims, patchDim, false, false);
    StoreAt(buffer, start, result.hidden);
  }

  /** The horizontal pass: row `r`'s summary is left at `buffer + r * hiddenDims1`. */
  method RowPass(patch: seq<int>, inputDims: nat, patchDim: nat, stride: nat,
                 rnn1: Cell, hiddenDims1: nat, buffer: array<int>)
    requires PatchCovers(patch, inputDims, patchDim, stride) && PreservesLength(rnn1)
    requires patchDim * hiddenDims1 <= buffer.Length
    modifies buffer
    ensures buffer[..patchDim * hiddenDims1]
         == RowSummaries(patch, inputDims, patchDim, stride, rnn1, hiddenDims1, patchDim)
    ensures buffer[patchDim * hiddenDims1 ..] == old(buffer[patchDim * hiddenDims1 ..])
  {
    var total := patchDim * hiddenDims1;
    Clear(buffer, total);
    var start := 0;
    for r := 0 to patchDim
      invariant start == r * hiddenDims1 && start <= total
      invariant buffer[..start] == RowSummaries(patch, inputDims, patchDim, stride, rnn1, hiddenDims1, r)
      invariant forall i :: start <= i < total ==> buffer[i] == 0
      invariant buffer[total..] == old(buffer[total..])
    {
      VecInBounds(r, patchDim, hiddenDims1);
      assert buffer[start .. start + hiddenDims1] == Zeros(hiddenDims1);
      RowRun(patch, inputDims, patchDim, stride, rnn1, hiddenDims1, r, buffer, start);
      RowSummariesGrow(patch, inputDims, patchDim, stride, rnn1, hiddenDims1, r);
      start := start + hiddenDims1;
      assert start == (r + 1) * hiddenDims1;
    }
  }

  /** The vertical pass over column `c`: one single-step call of `rnn1` per
      pixel, top to bottom, all on the summary at `buffer + start`. */
  method ColumnRun(patch: seq<int>, inputDims: nat, patchDim: nat, stride: nat,
                   rnn1: Cell, hiddenDims1: nat, c: nat, buffer: array<int>, start: nat)
    requires PatchCovers(patch, inputDims, patchDim, stride) && PreservesLength(rnn1) && c < patchDim
    requires start + hiddenDims1 <= buffer.Length
    requires buffer[start .. start + hiddenDims1] == Zeros(hiddenDims1)
    modifies buffer
    ensures buffer[..start + hiddenDims1]
         == old(buffer[..start]) + ColumnSummary(patch, inputDims, patchDim, stride, rnn1, hiddenDims1, c, patchDim)
    ensures buffer[start + hiddenDims1 ..] == old(buffer[start + hiddenDims1 ..])
  {
    for r := 0 to patchDim
      invariant buffer[start .. start + hiddenDims1]
             == ColumnSummary(patch, inputDims, patchDim, stride, rnn1, hiddenDims1, c, r)
      invariant buffer[..start] == old(buffer[..start])
      invariant buffer[start + hiddenDims1 ..] == old(buffer[start + hiddenDims1 ..])
    {
      var result := rnn1(buffer[start .. start + hiddenDims1], Pixels(patch, inputDims, patchDim, stride, r, c, 1),
                         inputDims, 1, false, false);
      StoreAt(buffer, start, result.hidden);
    }
    assert buffer[..start + hiddenDims1] == buffer[..start] + buffer[start .. start + hiddenDims1];
  }

  /** The vertical pass: column `c`'s summary is left at `buffer + c * hiddenDims1`. */
  method ColumnPass(patch: seq<int>, inputDims: nat, patchDim: nat, stride: nat,
                    rnn1: Cell, hiddenDims1: nat, buffer: array<int>)
    requires PatchCovers(patch, inputDims, patchDim, stride) && PreservesLength(rnn1)
    requires patchDim * hiddenDims1 <= buffer.Length
    modifies buffer
    ensures buffer[..patchDim * hiddenDims1]
         == ColumnSummaries(patch, inputDims, patchDim, stride, rnn1, hiddenDims1, patchDim)
    ensures buffer[patchDim * hiddenDims1 ..] == old(buffer[patchDim * hiddenDims1 ..])
  {
    var total := patchDim * hiddenDims1;
    Clear(buffer, total);
    var start := 0;
    for c := 0 to patchDim
      invariant start == c * hiddenDims1 && start <= total
      invariant buffer[..start] == ColumnSummaries(patch, inputDims, patchDim, stride, rnn1, hiddenDims1, c)
      invariant forall i :: start <= i < total ==> buffer[i] == 0
      invariant buffer[total..] == old(buffer[total..])
    {
      VecInBounds(c, patchDim, hiddenDims1);
      assert buffer[start .. start + hiddenDims1] == Zeros(hiddenDims1);
      ColumnRun(patch, inputDims, patchDim, stride, rnn1, hiddenDims1, c, buffer, start);
      ColumnSummariesGrow(patch, inputDims, patchDim, stride, rnn1, hiddenDims1, c);
      start := start + hiddenDims1;
      assert start == (c + 1) * hiddenDims1;
    }
  }

  /** The forward and the backward pass of `rnn2` over `summaries`, into the
      two cleared hidden states at `output + at` and `output + at + hiddenDims2`. */
  method SummaryPasses(rnn2: Cell, hiddenDims2: nat, summaries: seq<int>, hiddenDims1: nat, patchDim: nat,
                       output: array<int>, at: nat)
    requires PreservesLength(rnn2)
    requires at + 2 * hiddenDims2 <= output.Length
    requires output[at .. at + 2 * hiddenDims2] == Zeros(2 * hiddenDims2)
    modifies output
    ensures output[..at + 2 * hiddenDims2]
         == old(output[..at]) + SummaryPass(rnn2, hiddenDims2, summaries, hiddenDims1, patchDim, false)
                              + SummaryPass(rnn2, hiddenDims2, summaries, hiddenDims1, patchDim, true)
    ensures output[at + 2 * hiddenDims2 ..] == old(output[at + 2 * hiddenDims2 ..])
  {
    var h2 := hiddenDims2;
    ghost var cleared := output[at .. at + 2 * h2];
    assert cleared[..h2] == Zeros(h2) && cleared[h2..] == Zeros(h2);
    assert output[at .. at + h2] == cleared[..h2];
    var pass := rnn2(output[at .. at + h2], summaries, hiddenDims1, patchDim, false, false);
    StoreAt(output, at, pass.hidden);
    assert output[at + h2 .. at + 2 * h2] == cleared[h2..];
    pass := rnn2(output[at + h2 .. at + 2 * h2], summaries, hiddenDims1, patchDim, true, false);
    StoreAt(output, at + h2, pass.hidden);
  }

  /** `q_rnnpool_block`: clears the output, runs the row pass, the two `rnn2`
      passes over the row summaries, the column pass and the two `rnn2`
      passes over the column summaries, and returns 0. The codes the cells
      return are not looked at. */
  method QRNNPoolBlock(patch: seq<int>, inputDims: nat, patchDim: nat, stride: nat,
                       rnn1: Cell, hiddenDims1: nat, rnn2: Cell, hiddenDims2: nat,
                       output: array<int>, buffer: array<int>) returns (status: int)
    requires PatchCovers(patch, inputDims, patchDim, stride)
    requires PreservesLength(rnn1) && PreservesLength(rnn2)
    requires 4 * hiddenDims2 <= output.Length && patchDim * hiddenDims1 <= buffer.Length
    requires output != buffer
    modifies output, buffer
    ensures status == 0
    ensures output[..4 * hiddenDims2]
         == PoolOutput(patch, inputDims, patchDim, stride, rnn1, hiddenDims1, rnn2, hiddenDims2)
    ensures output[4 * hiddenDims2 ..] == old(output[4 * hiddenDims2 ..])
    ensures buffer[..patchDim * hiddenDims1]
         == ColumnSummaries(patch, inputDims, patchDim, stride, rnn1, hiddenDims1, patchDim)
    ensures buffer[patchDim * hiddenDims1 ..] == old(buffer[patchDim * hiddenDims1 ..])
  {
    var h2, total := hiddenDims2, patchDim * hiddenDims1;
    Clear(output, 4 * h2);
    assert output[2 * h2 .. 4 * h2] == Zeros(2 * h2);

    RowPass(patch, inputDims, patchDim, stride, rnn1, hiddenDims1, buffer);
    var rows := buffer[..total];
    SummaryPasses(rnn2, h2, rows, hiddenDims1, patchDim, output, 0);
    assert output[4 * h2 ..] == old(output[4 * h2 ..]);
    ghost var rowPasses := output[..2 * h2];
    assert rowPasses == SummaryPass(rnn2, h2, rows, hiddenDims1, patchDim, false)
                        + SummaryPass(rnn2, h2, rows, hiddenDims1, patchDim, true);

    ColumnPass(patch, inputDims, patchDim, stride, rnn1, hiddenDims1, buffer);
    var columns := buffer[..total];
    SummaryPasses(rnn2, h2, columns, hiddenDims1, patchDim, output, 2 * h2);
    assert output[4 * h2 ..] == old(output[4 * h2 ..]);
    assert output[..4 * h2] == rowPasses + SummaryPass(rnn2, h2, columns, hiddenDims1, patchDim, false)
                                         + SummaryPass(rnn2, h2, columns, hiddenDims1, patchDim, true);
    return 0;
  }
}
