/** The quantized FastGRNN cell (`q_fastgrnn`) and its low-rank variant
    (`q_fastgrnn_lr`): after checking that the scratch buffers exist, each
    advances a caller-owned hidden state over `steps` input vectors, forward or
    in reverse, through a fixed chain of fixed-point primitives.

    The specification functions below (`Features`, `PreActivation`, `Mix`,
    `Step`, `Schedule`, `Advance`, `Run`) describe what a run computes; the methods at
    the end perform it in place on the caller's buffers, as the C code does,
    and are proved to agree with them. */
module QuantizedFastGRNN {
  import opened FlatVectors
  import opened QuantizedPrimitives

  /** The return codes: `0` and the `ERR_*_NOT_INIT` codes. */
  datatype Status = Success | PrecompNotInit | TempLRWNotInit | TempLRUNotInit | NormFeaturesNotInit

  /** Parameters both variants share: the per-step normalisation vectors
      (`mean`, inverse `stdDev`, `steps * inputDims` entries each), the gate
      and candidate biases, and the two mixing constants. */
  datatype GateParams = GateParams(mean: Vector, stdDev: Vector, Bg: Vector, Bh: Vector, zeta: int, nu: int)

  /** `Q_FastGRNN_Params`: full-rank input and hidden matrices. */
  datatype Params = Params(W: Vector, U: Vector, gates: GateParams)

  /** `Q_FastGRNN_LR_Params`: each matrix as a product of two factors of the given rank. */
  datatype LRParams = LRParams(W1: Vector, W2: Vector, wRank: nat, U1: Vector, U2: Vector, uRank: nat, gates: GateParams)

  /** The scales of every sub-step both variants share, one record per sub-step. */
  datatype GateScales = GateScales(
    meanSub: AddScales,      // input minus mean
    normStdDev: MulScales,   // times the inverse standard deviation
    addWU: AddScales,        // sum of the two projections
    addBg: AddScales,        // plus the gate bias
    sigmoid: SigmoidScales,
    addBh: AddScales,        // plus the candidate bias
    tanh: TanhScales,
    gateHD: MulScales,       // gate times hidden state
    qOne: int,               // the fixed-point representation of 1
    qOneSub: AddScales,      // qOne minus gate
    zetaMul: MulScales,      // zeta times that
    nuAdd: AddScales,        // nu plus that
    updateHD: MulScales,     // that times the candidate
    hiddenOut: AddScales)    // final sum, written to the hidden state

  /** `Q_FastGRNN_Scales`. */
  datatype Scales = Scales(mvW: MatVecScales, mvU: MatVecScales, gates: GateScales)

  /** `Q_FastGRNN_LR_Scales`. */
  datatype LRScales = LRScales(mvW1: MatVecScales, mvW2: MatVecScales, mvU1: MatVecScales, mvU2: MatVecScales, gates: GateScales)

  /** Which of the two cells runs, with its parameters and scales. */
  datatype Variant = Standard(params: Params, scales: Scales) | LowRank(lrParams: LRParams, lrScales: LRScales)
  {
    function Gates(): GateParams {
      if Standard? then params.gates else lrParams.gates
    }

    function GateScalesOf(): GateScales {
      if Standard? then scales.gates else lrScales.gates
    }

    /** The same cell with other normalisation vectors. */
    function WithNormalization(mean: Vector, stdDev: Vector): (v: Variant)
      ensures v.Gates() == Gates().(mean := mean, stdDev := stdDev)
      ensures v.GateScalesOf() == GateScalesOf()
    {
      if Standard? then Standard(params.(gates := params.gates.(mean := mean, stdDev := stdDev)), scales)
      else LowRank(lrParams.(gates := lrParams.gates.(mean := mean, stdDev := stdDev)), lrScales)
    }
  }

  // ---------------------------------------------------------------------
  // Buffer checks

  /** Outcome of `q_fastgrnn`'s buffer checks, given which buffers are present. */
  function BufferStatus(preComp1: bool, preComp2: bool, preComp3: bool, normFeatures: bool): (s: Status)
    ensures s == PrecompNotInit <==> !(preComp1 && preComp2 && preComp3)
    ensures s == NormFeaturesNotInit <==> preComp1 && preComp2 && preComp3 && !normFeatures
    ensures s == Success <==> preComp1 && preComp2 && preComp3 && normFeatures
  {
    if !preComp1 then PrecompNotInit
    else if !preComp2 then PrecompNotInit
    else if !preComp3 then PrecompNotInit
    else if !normFeatures then NormFeaturesNotInit
    else Success
  }

  /** Outcome of `q_fastgrnn_lr`'s buffer checks: the first missing buffer in
      the order preComp1-3, tempLRW, tempLRU, normFeatures decides the code. */
  function LRBufferStatus(preComp1: bool, preComp2: bool, preComp3: bool,
                          tempLRW: bool, tempLRU: bool, normFeatures: bool): (s: Status)
    ensures s == PrecompNotInit <==> !(preComp1 && preComp2 && preComp3)
    ensures s == TempLRWNotInit <==> preComp1 && preComp2 && preComp3 && !tempLRW
    ensures s == TempLRUNotInit <==> preComp1 && preComp2 && preComp3 && tempLRW && !tempLRU
    ensures s == NormFeaturesNotInit <==> preComp1 && preComp2 && preComp3 && tempLRW && tempLRU && !normFeatures
    ensures s == Success <==> preComp1 && preComp2 && preComp3 && tempLRW && tempLRU && normFeatures
  {
    if !preComp1 then PrecompNotInit
    else if !preComp2 then PrecompNotInit
    else if !preComp3 then PrecompNotInit
    else if !tempLRW then TempLRWNotInit
    else if !tempLRU then TempLRUNotInit
    else if !normFeatures then NormFeaturesNotInit
    else Success
  }

  /** No two present buffers of `arrs` share storage. */
  ghost predicate Separate(arrs: seq<array?<int>>) {
    forall i, j :: 0 <= i < j < |arrs| && arrs[i] != null ==> arrs[i] != arrs[j]
  }

  /** The set of the non-null arrays among `arrs`. */
  ghost function Present(arrs: seq<array?<int>>): set<array<int>> {
    set a: array<int> | a in arrs
  }

  /** `Q_FastGRNN_Buffers`: the caller's scratch buffers, each possibly unset. */
  class Buffers {
    var preComp1: array?<int>
    var preComp2: array?<int>
    var preComp3: array?<int>
    var normFeatures: array?<int>

    ghost function Arrays(): set<array<int>>
      reads this
    {
      Present([preComp1, preComp2, preComp3, normFeatures])
    }

    /** Every present buffer holds what one step writes to it, and no two of
        them, nor the hidden state, share storage. */
    ghost predicate Ready(hiddenState: array<int>, hiddenDims: nat, inputDims: nat)
      reads this
    {
      && (preComp1 != null ==> hiddenDims <= preComp1.Length)
      && (preComp2 != null ==> hiddenDims <= preComp2.Length)
      && (preComp3 != null ==> hiddenDims <= preComp3.Length)
      && (normFeatures != null ==> inputDims <= normFeatures.Length)
      && Separate([hiddenState, preComp1, preComp2, preComp3, normFeatures])
    }
  }

  /** `Q_FastGRNN_LR_Buffers`: as `Buffers`, plus the two rank-sized intermediates. */
  class LRBuffers {
    var preComp1: array?<int>
    var preComp2: array?<int>
    var preComp3: array?<int>
    var tempLRW: array?<int>
    var tempLRU: array?<int>
    var normFeatures: array?<int>

    ghost function Arrays(): set<array<int>>
      reads this
    {
      Present([preComp1, preComp2, preComp3, tempLRW, tempLRU, normFeatures])
    }

    ghost predicate Ready(hiddenState: array<int>, hiddenDims: nat, inputDims: nat, wRank: nat, uRank: nat)
      reads this
    {
      && (preComp1 != null ==> hiddenDims <= preComp1.Length)
      && (preComp2 != null ==> hiddenDims <= preComp2.Length)
      && (preComp3 != null ==> hiddenDims <= preComp3.Length)
      && (tempLRW != null ==> wRank <= tempLRW.Length)
      && (tempLRU != null ==> uRank <= tempLRU.Length)
      && (normFeatures != null ==> inputDims <= normFeatures.Length)
      && Separate([hiddenState, preComp1, preComp2, preComp3, tempLRW, tempLRU, normFeatures])
    }
  }

  // ---------------------------------------------------------------------
  // What a run computes

  /** Index of the input vector that step `t` of a `steps`-step run reads. */
  function Offset(steps: nat, t: nat, backward: bool): (o: nat)
    requires t < steps
    ensures o < steps
  {
    if backward then steps - 1 - t else t
  }

  /** The read order is a permutation of `0 .. steps - 1`: strictly ascending
      forward, strictly descending backward, and every vector is read (at the
      step whose index is its own offset). */
  lemma OffsetOrder(steps: nat, backward: bool)
    ensures forall t1, t2 :: 0 <= t1 < t2 < steps ==>
      if backward then Offset(steps, t1, backward) > Offset(steps, t2, backward)
      else Offset(steps, t1, backward) < Offset(steps, t2, backward)
    ensures forall o :: 0 <= o < steps ==> Offset(steps, Offset(steps, o, backward), backward) == o
  {
  }

  /** Everything a run over `input` needs: lengths the primitives promise,
      biases covering the hidden state, `steps` input vectors and, when
      normalising, `steps` mean and deviation vectors. */
  ghost predicate Fits(p: Primitives, v: Variant, hiddenDims: nat, input: Vector, inputDims: nat, steps: nat, normalize: bool) {
    && Valid(p)
    && hiddenDims <= |v.Gates().Bg|
    && hiddenDims <= |v.Gates().Bh|
    && steps * inputDims <= |input|
    && (normalize ==> steps * inputDims <= |v.Gates().mean| && steps * inputDims <= |v.Gates().stdDev|)
  }

  /** The features of the step that reads vector `offset`: the vector itself,
      or, when normalising, (input - mean) times the inverse deviation. */
  function Features(p: Primitives, g: GateParams, s: GateScales, input: Vector, inputDims: nat, steps: nat,
                    offset: nat, normalize: bool): (x: Vector)
    requires Valid(p) && steps * inputDims <= |input| && offset < steps
    requires normalize ==> steps * inputDims <= |g.mean| && steps * inputDims <= |g.stdDev|
    ensures |x| == inputDims
  {
    var raw := VecAt(input, steps, inputDims, offset);
    if normalize then
      p.hadamard(VecAt(g.stdDev, steps, inputDims, offset),
                 p.sub(raw, VecAt(g.mean, steps, inputDims, offset), s.meanSub), s.normStdDev)
    else raw
  }

  /** `W x + U h`; in the low-rank variant `W2 (W1 x) + U2 (U1 h)`. */
  function PreActivation(p: Primitives, v: Variant, h: Vector, x: Vector): (pre: Vector)
    requires Valid(p)
    ensures |pre| == |h|
  {
    match v
    case Standard(params, s) =>
      p.add(p.mulVec(params.W, x, |h|, s.mvW), p.mulVec(params.U, h, |h|, s.mvU), s.gates.addWU)
    case LowRank(params, s) =>
      p.add(p.mulVec(params.W2, p.mulVec(params.W1, x, params.wRank, s.mvW1), |h|, s.mvW2),
            p.mulVec(params.U2, p.mulVec(params.U1, h, params.uRank, s.mvU1), |h|, s.mvU2),
            s.gates.addWU)
  }

  /** The update gate `z = sigmoid(pre + Bg)`. */
  function UpdateGate(p: Primitives, g: GateParams, s: GateScales, pre: Vector): (z: Vector)
    requires Valid(p) && |pre| <= |g.Bg|
    ensures |z| == |pre|
  {
    p.sigmoid(p.add(pre, g.Bg[..|pre|], s.addBg), s.sigmoid)
  }

  /** The candidate `c = tanh(pre + Bh)`, from the same pre-activation as the gate. */
  function Candidate(p: Primitives, g: GateParams, s: GateScales, pre: Vector): (c: Vector)
    requires Valid(p) && |pre| <= |g.Bh|
    ensures |c| == |pre|
  {
    p.tanh(p.add(pre, g.Bh[..|pre|], s.addBh), s.tanh)
  }

  /** The weight of the candidate, `nu + zeta (qOne - z)`, in that order of sub-steps. */
  function CandidateWeight(p: Primitives, g: GateParams, s: GateScales, z: Vector): (w: Vector)
    requires Valid(p)
    ensures |w| == |z|
  {
    p.scalarAdd(g.nu, p.scalarMul(g.zeta, p.scalarSub(s.qOne, z, s.qOneSub), s.zetaMul), s.nuAdd)
  }

  /** The new hidden state `z h + (nu + zeta (qOne - z)) c`. */
  function Mix(p: Primitives, g: GateParams, s: GateScales, h: Vector, pre: Vector): (h': Vector)
    requires Valid(p) && |pre| == |h| && |h| <= |g.Bg| && |h| <= |g.Bh|
    ensures |h'| == |h|
  {
    var z := UpdateGate(p, g, s, pre);
    p.add(p.hadamard(z, h, s.gateHD),
          p.hadamard(CandidateWeight(p, g, s, z), Candidate(p, g, s, pre), s.updateHD),
          s.hiddenOut)
  }

  /** One time-step on features `x`. */
  function Step(p: Primitives, v: Variant, h: Vector, x: Vector): (h': Vector)
    requires Valid(p) && |h| <= |v.Gates().Bg| && |h| <= |v.Gates().Bh|
    ensures |h'| == |h|
  {
    Mix(p, v.Gates(), v.GateScalesOf(), h, PreActivation(p, v, h, x))
  }

  /** The features a `steps`-step run reads, in the order it reads them:
      step `t` reads vector `Offset(steps, t, backward)`. */
  function Schedule(p: Primitives, g: GateParams, s: GateScales, input: Vector, inputDims: nat, steps: nat,
                    backward: bool, normalize: bool): (xs: seq<Vector>)
    requires Valid(p) && steps * inputDims <= |input|
    requires normalize ==> steps * inputDims <= |g.mean| && steps * inputDims <= |g.stdDev|
    ensures |xs| == steps
    ensures forall t :: 0 <= t < steps ==> |xs[t]| == inputDims
  {
    seq(steps, t requires 0 <= t < steps =>
      Features(p, g, s, input, inputDims, steps, Offset(steps, t, backward), normalize))
  }

  /** The hidden state reached from `h` by one step on each of `xs`, in order. */
  function Advance(p: Primitives, v: Variant, h: Vector, xs: seq<Vector>): (h': Vector)
    requires Valid(p) && |h| <= |v.Gates().Bg| && |h| <= |v.Gates().Bh|
    ensures |h'| == |h|
    ensures |xs| == 0 ==> h' == h
    decreases |xs|
  {
    if |xs| == 0 then h
    else Step(p, v, Advance(p, v, h, xs[..|xs| - 1]), xs[|xs| - 1])
  }

  /** One more feature vector advances the state by one more step. */
  lemma AdvanceSnoc(p: Primitives, v: Variant, h: Vector, xs: seq<Vector>, t: nat)
    requires Valid(p) && |h| <= |v.Gates().Bg| && |h| <= |v.Gates().Bh| && t < |xs|
    ensures Advance(p, v, h, xs[..t + 1]) == Step(p, v, Advance(p, v, h, xs[..t]), xs[t])
  {
    assert xs[..t + 1][..t] == xs[..t];
  }

  /** The hidden state at the end of a run; a run of no steps leaves it as it was. */
  function Run(p: Primitives, v: Variant, h: Vector, input: Vector, inputDims: nat, steps: nat,
               backward: bool, normalize: bool): (h': Vector)
    requires Fits(p, v, |h|, input, inputDims, steps, normalize)
    ensures |h'| == |h|
    ensures steps == 0 ==> h' == h
  {
    Advance(p, v, h, Schedule(p, v.Gates(), v.GateScalesOf(), input, inputDims, steps, backward, normalize))
  }

  // ---------------------------------------------------------------------
  // Properties of runs

  /** Advancing over `xs` and then over `ys` is advancing over `xs + ys`: a
      run can be split into successive calls that carry the hidden state. */
  lemma {:induction false} AdvanceConcat(p: Primitives, v: Variant, h: Vector, xs: seq<Vector>, ys: seq<Vector>)
    requires Valid(p) && |h| <= |v.Gates().Bg| && |h| <= |v.Gates().Bh|
    ensures Advance(p, v, h, xs + ys) == Advance(p, v, Advance(p, v, h, xs), ys)
    decreases |ys|
  {
    if |ys| == 0 {
      assert xs + ys == xs;
    } else {
      var ys' := ys[..|ys| - 1];
      AdvanceConcat(p, v, h, xs, ys');
      assert (xs + ys)[..|xs + ys| - 1] == xs + ys';
    }
  }

  /** With a single step the direction flag changes nothing. */
  lemma OneStepIgnoresDirection(p: Primitives, v: Variant, h: Vector, input: Vector, inputDims: nat, normalize: bool)
    requires Fits(p, v, |h|, input, inputDims, 1, normalize)
    ensures Run(p, v, h, input, inputDims, 1, true, normalize) == Run(p, v, h, input, inputDims, 1, false, normalize)
  {
    var g, s := v.Gates(), v.GateScalesOf();
    assert Schedule(p, g, s, input, inputDims, 1, true, normalize)
        == Schedule(p, g, s, input, inputDims, 1, false, normalize);
  }

  /** The features of `m + n` forward steps over `x + y` are those of `m`
      steps over `x`, then those of `n` steps over `y`. */
  lemma ScheduleAppend(p: Primitives, g: GateParams, s: GateScales, x: Vector, y: Vector, inputDims: nat, m: nat, n: nat)
    requires Valid(p) && |x| == m * inputDims && |y| == n * inputDims
    ensures (m + n) * inputDims == |x + y|
    ensures Schedule(p, g, s, x + y, inputDims, m + n, false, false)
         == Schedule(p, g, s, x, inputDims, m, false, false) + Schedule(p, g, s, y, inputDims, n, false, false)
  {
    Distribute(m, n, inputDims);
    var whole := Schedule(p, g, s, x + y, inputDims, m + n, false, false);
    var front := Schedule(p, g, s, x, inputDims, m, false, false);
    var back := Schedule(p, g, s, y, inputDims, n, false, false);
    forall t | 0 <= t < m + n
      ensures whole[t] == (front + back)[t]
    {
      VecInBounds(t, m + n, inputDims);
      if t < m {
        VecInBounds(t, m, inputDims);
      } else {
        VecInBounds(t - m, n, inputDims);
        Distribute(t - m, m, inputDims);
      }
    }
  }

  /** Without normalisation a forward run can be split anywhere: running over
      `x` and then, from the state reached, over `y` is one run over `x + y`.
      In particular `n` one-step calls on successive vectors are one call of
      `n` steps. */
  lemma RunsCompose(p: Primitives, v: Variant, h: Vector, x: Vector, y: Vector, inputDims: nat, m: nat, n: nat)
    requires Fits(p, v, |h|, x, inputDims, m, false) && |x| == m * inputDims && |y| == n * inputDims
    ensures Fits(p, v, |h|, y, inputDims, n, false)
    ensures Fits(p, v, |h|, x + y, inputDims, m + n, false)
    ensures Run(p, v, Run(p, v, h, x, inputDims, m, false, false), y, inputDims, n, false, false)
         == Run(p, v, h, x + y, inputDims, m + n, false, false)
  {
    var g, s := v.Gates(), v.GateScalesOf();
    ScheduleAppend(p, g, s, x, y, inputDims, m, n);
    AdvanceConcat(p, v, h, Schedule(p, g, s, x, inputDims, m, false, false), Schedule(p, g, s, y, inputDims, n, false, false));
  }

  /** Without normalisation, a backward run reads exactly the vectors a
      forward run over the input with its vectors reversed reads. */
  lemma BackwardScheduleIsReversed(p: Primitives, g: GateParams, s: GateScales, input: Vector,
                                   inputDims: nat, steps: nat)
    requires Valid(p) && steps * inputDims <= |input|
    ensures Schedule(p, g, s, input, inputDims, steps, true, false)
         == Schedule(p, g, s, ReverseVectors(input, steps, inputDims), inputDims, steps, false, false)
  {
    var rev := ReverseVectors(input, steps, inputDims);
    var xs := Schedule(p, g, s, input, inputDims, steps, true, false);
    var ys := Schedule(p, g, s, rev, inputDims, steps, false, false);
    forall t | 0 <= t < steps
      ensures xs[t] == ys[t]
    {
      ReverseVectorsAt(input, steps, inputDims, t);
    }
  }

  /** So a backward run computes the same state as that forward run. */
  lemma BackwardRunIsReversedForwardRun(p: Primitives, v: Variant, h: Vector, input: Vector,
                                        inputDims: nat, steps: nat)
    requires Fits(p, v, |h|, input, inputDims, steps, false)
    ensures Fits(p, v, |h|, ReverseVectors(input, steps, inputDims), inputDims, steps, false)
    ensures Run(p, v, h, input, inputDims, steps, true, false)
         == Run(p, v, h, ReverseVectors(input, steps, inputDims), inputDims, steps, false, false)
  {
    BackwardScheduleIsReversed(p, v.Gates(), v.GateScalesOf(), input, inputDims, steps);
  }

  /** With normalisation, the mean and deviation vectors are chosen by the
      same offset as the input vector: a backward run reads what a forward
      run reads over the input, the means and the deviations, each with its
      vectors reversed. */
  lemma BackwardNormalizedScheduleIsReversed(p: Primitives, g: GateParams, s: GateScales, input: Vector,
                                             inputDims: nat, steps: nat)
    requires Valid(p) && steps * inputDims <= |input|
    requires steps * inputDims <= |g.mean| && steps * inputDims <= |g.stdDev|
    ensures Schedule(p, g, s, input, inputDims, steps, true, true)
         == Schedule(p, g.(mean := ReverseVectors(g.mean, steps, inputDims),
                           stdDev := ReverseVectors(g.stdDev, steps, inputDims)),
                     s, ReverseVectors(input, steps, inputDims), inputDims, steps, false, true)
  {
    var g' := g.(mean := ReverseVectors(g.mean, steps, inputDims), stdDev := ReverseVectors(g.stdDev, steps, inputDims));
    var xs := Schedule(p, g, s, input, inputDims, steps, true, true);
    var ys := Schedule(p, g', s, ReverseVectors(input, steps, inputDims), inputDims, steps, false, true);
    forall t | 0 <= t < steps
      ensures xs[t] == ys[t]
    {
      ReverseVectorsAt(input, steps, inputDims, t);
      ReverseVectorsAt(g.mean, steps, inputDims, t);
      ReverseVectorsAt(g.stdDev, steps, inputDims, t);
    }
  }

  /** A step never reads the normalisation vectors. */
  lemma {:induction false} AdvanceIgnoresNormalization(p: Primitives, v: Variant, mean: Vector, stdDev: Vector,
                                                       h: Vector, xs: seq<Vector>)
    requires Valid(p) && |h| <= |v.Gates().Bg| && |h| <= |v.Gates().Bh|
    ensures Advance(p, v.WithNormalization(mean, stdDev), h, xs) == Advance(p, v, h, xs)
    decreases |xs|
  {
    if |xs| > 0 {
      AdvanceIgnoresNormalization(p, v, mean, stdDev, h, xs[..|xs| - 1]);
    }
  }

  /** So a normalised backward run computes the same state as the normalised
      forward run over the reversed input, means and deviations. */
  lemma BackwardNormalizedRunIsReversedForwardRun(p: Primitives, v: Variant, h: Vector, input: Vector,
                                                  inputDims: nat, steps: nat)
    requires Fits(p, v, |h|, input, inputDims, steps, true)
    ensures var v' := v.WithNormalization(ReverseVectors(v.Gates().mean, steps, inputDims),
                                          ReverseVectors(v.Gates().stdDev, steps, inputDims));
            && Fits(p, v', |h|, ReverseVectors(input, steps, inputDims), inputDims, steps, true)
            && Run(p, v, h, input, inputDims, steps, true, true)
               == Run(p, v', h, ReverseVectors(input, steps, inputDims), inputDims, steps, false, true)
  {
    var g := v.Gates();
    var v' := v.WithNormalization(ReverseVectors(g.mean, steps, inputDims), ReverseVectors(g.stdDev, steps, inputDims));
    BackwardNormalizedScheduleIsReversed(p, g, v.GateScalesOf(), input, inputDims, steps);
    AdvanceIgnoresNormalization(p, v, ReverseVectors(g.mean, steps, inputDims), ReverseVectors(g.stdDev, steps, inputDims),
                                h, Schedule(p, v'.Gates(), v'.GateScalesOf(), ReverseVectors(input, steps, inputDims),
                                            inputDims, steps, false, true));
  }

  /** The low-rank factors reproduce the full-rank products exactly, and the
      two cells share biases, constants and gate scales. */
  ghost predicate Factorizes(p: Primitives, std: Params, stdScales: Scales, lr: LRParams, lrScales: LRScales,
                             hiddenDims: nat, inputDims: nat) {
    && std.gates == lr.gates
    && stdScales.gates == lrScales.gates
    && (forall x: Vector | |x| == inputDims ::
          p.mulVec(lr.W2, p.mulVec(lr.W1, x, lr.wRank, lrScales.mvW1), hiddenDims, lrScales.mvW2)
          == p.mulVec(std.W, x, hiddenDims, stdScales.mvW))
    && (forall h: Vector | |h| == hiddenDims ::
          p.mulVec(lr.U2, p.mulVec(lr.U1, h, lr.uRank, lrScales.mvU1), hiddenDims, lrScales.mvU2)
          == p.mulVec(std.U, h, hiddenDims, stdScales.mvU))
  }

  /** One step of each cell from the same state on the same features agrees. */
  lemma LowRankStepMatches(p: Primitives, std: Params, stdScales: Scales, lr: LRParams, lrScales: LRScales,
                           h: Vector, x: Vector)
    requires Valid(p) && |h| <= |std.gates.Bg| && |h| <= |std.gates.Bh|
    requires Factorizes(p, std, stdScales, lr, lrScales, |h|, |x|)
    ensures Step(p, LowRank(lr, lrScales), h, x) == Step(p, Standard(std, stdScales), h, x)
  {
    assert PreActivation(p, LowRank(lr, lrScales), h, x) == PreActivation(p, Standard(std, stdScales), h, x);
  }

  /** Advancing both cells over the same features agrees step by step. */
  lemma {:induction false} LowRankAdvanceMatches(p: Primitives, std: Params, stdScales: Scales, lr: LRParams,
                                                 lrScales: LRScales, h: Vector, xs: seq<Vector>, inputDims: nat)
    requires Valid(p) && |h| <= |std.gates.Bg| && |h| <= |std.gates.Bh|
    requires Factorizes(p, std, stdScales, lr, lrScales, |h|, inputDims)
    requires forall t :: 0 <= t < |xs| ==> |xs[t]| == inputDims
    ensures Advance(p, LowRank(lr, lrScales), h, xs) == Advance(p, Standard(std, stdScales), h, xs)
    decreases |xs|
  {
    if |xs| > 0 {
      var xs' := xs[..|xs| - 1];
      LowRankAdvanceMatches(p, std, stdScales, lr, lrScales, h, xs', inputDims);
      var prev := Advance(p, Standard(std, stdScales), h, xs');
      LowRankStepMatches(p, std, stdScales, lr, lrScales, prev, xs[|xs| - 1]);
    }
  }

  /** With an exact factorisation the low-rank cell computes the same hidden
      state as the standard cell. */
  lemma LowRankMatchesStandard(p: Primitives, std: Params, stdScales: Scales, lr: LRParams, lrScales: LRScales,
                               h: Vector, input: Vector, inputDims: nat, steps: nat, backward: bool, normalize: bool)
    requires Fits(p, Standard(std, stdScales), |h|, input, inputDims, steps, normalize)
    requires Factorizes(p, std, stdScales, lr, lrScales, |h|, inputDims)
    ensures Fits(p, LowRank(lr, lrScales), |h|, input, inputDims, steps, normalize)
    ensures Run(p, LowRank(lr, lrScales), h, input, inputDims, steps, backward, normalize)
         == Run(p, Standard(std, stdScales), h, input, inputDims, steps, backward, normalize)
  {
    var xs := Schedule(p, std.gates, stdScales.gates, input, inputDims, steps, backward, normalize);
    LowRankAdvanceMatches(p, std, stdScales, lr, lrScales, h, xs, inputDims);
  }

  // ---------------------------------------------------------------------
  // The in-place implementation

  /** `(input - mean) * stdDev` for vector `offset`, computed in `normFeatures`. */
  method NormalizeFeatures(normFeatures: array<int>, p: Primitives, g: GateParams, s: GateScales,
                           input: Vector, inputDims: nat, steps: nat, offset: nat)
    requires Valid(p) && steps * inputDims <= |input| && offset < steps
    requires steps * inputDims <= |g.mean| && steps * inputDims <= |g.stdDev|
    requires inputDims <= normFeatures.Length
    modifies normFeatures
    ensures normFeatures[..inputDims] == Features(p, g, s, input, inputDims, steps, offset, true)
    ensures normFeatures[inputDims..] == old(normFeatures[inputDims..])
  {
    StoreAt(normFeatures, 0, p.sub(VecAt(input, steps, inputDims, offset),
                                   VecAt(g.mean, steps, inputDims, offset), s.meanSub));
    StoreAt(normFeatures, 0, p.hadamard(VecAt(g.stdDev, steps, inputDims, offset),
                                        normFeatures[..inputDims], s.normStdDev));
  }

  /** Fills `normFeatures` with the features of vector `offset`: either the
      element-by-element copy of the input vector or its normalisation. */
  method LoadFeatures(normFeatures: array<int>, p: Primitives, g: GateParams, s: GateScales,
                      input: Vector, inputDims: nat, steps: nat, offset: nat, normalize: bool)
    requires Valid(p) && steps * inputDims <= |input| && offset < steps
    requires normalize ==> steps * inputDims <= |g.mean| && steps * inputDims <= |g.stdDev|
    requires inputDims <= normFeatures.Length
    modifies normFeatures
    ensures normFeatures[..inputDims] == Features(p, g, s, input, inputDims, steps, offset, normalize)
    ensures !normalize ==> normFeatures[..inputDims] == input[offset * inputDims .. offset * inputDims + inputDims]
    ensures normFeatures[inputDims..] == old(normFeatures[inputDims..])
  {
    if normalize {
      NormalizeFeatures(normFeatures, p, g, s, input, inputDims, steps, offset);
    } else {
      VecInBounds(offset, steps, inputDims);
      var base := offset * inputDims;
      for d := 0 to inputDims
        invariant normFeatures[..d] == input[base .. base + d]
        invariant normFeatures[inputDims..] == old(normFeatures[inputDims..])
      {
        normFeatures[d] := input[base + d];
      }
    }
  }

  /** `preComp1 = W x + U h`, using `preComp2` for `U h`. */
  method Project(p: Primitives, params: Params, s: Scales, h: Vector, x: Vector,
                 preComp1: array<int>, preComp2: array<int>)
    requires Valid(p) && |h| <= preComp1.Length && |h| <= preComp2.Length && preComp1 != preComp2
    modifies preComp1, preComp2
    ensures preComp1[..|h|] == PreActivation(p, Standard(params, s), h, x)
    ensures preComp2[..|h|] == p.mulVec(params.U, h, |h|, s.mvU)
    ensures preComp1[|h|..] == old(preComp1[|h|..]) && preComp2[|h|..] == old(preComp2[|h|..])
  {
    var n := |h|;
    StoreAt(preComp1, 0, p.mulVec(params.W, x, n, s.mvW));
    StoreAt(preComp2, 0, p.mulVec(params.U, h, n, s.mvU));
    StoreAt(preComp1, 0, p.add(preComp1[..n], preComp2[..n], s.gates.addWU));
  }

  /** `preComp1 = W2 (W1 x) + U2 (U1 h)`, through `tempLRW` (`wRank` entries)
      and `tempLRU` (`uRank` entries). */
  method ProjectLowRank(p: Primitives, params: LRParams, s: LRScales, h: Vector, x: Vector,
                        preComp1: array<int>, preComp2: array<int>, tempLRW: array<int>, tempLRU: array<int>)
    requires Valid(p) && |h| <= preComp1.Length && |h| <= preComp2.Length
    requires params.wRank <= tempLRW.Length && params.uRank <= tempLRU.Length
    requires preComp1 != preComp2 && preComp1 != tempLRW && preComp1 != tempLRU
    requires preComp2 != tempLRW && preComp2 != tempLRU && tempLRW != tempLRU
    modifies preComp1, preComp2, tempLRW, tempLRU
    ensures tempLRW[..params.wRank] == p.mulVec(params.W1, x, params.wRank, s.mvW1)
    ensures tempLRU[..params.uRank] == p.mulVec(params.U1, h, params.uRank, s.mvU1)
    ensures preComp1[..|h|] == PreActivation(p, LowRank(params, s), h, x)
    ensures preComp2[..|h|] == p.mulVec(params.U2, tempLRU[..params.uRank], |h|, s.mvU2)
    ensures preComp1[|h|..] == old(preComp1[|h|..]) && preComp2[|h|..] == old(preComp2[|h|..])
    ensures tempLRW[params.wRank..] == old(tempLRW[params.wRank..])
    ensures tempLRU[params.uRank..] == old(tempLRU[params.uRank..])
  {
    var n := |h|;
    StoreAt(tempLRW, 0, p.mulVec(params.W1, x, params.wRank, s.mvW1));
    StoreAt(preComp1, 0, p.mulVec(params.W2, tempLRW[..params.wRank], n, s.mvW2));
    StoreAt(tempLRU, 0, p.mulVec(params.U1, h, params.uRank, s.mvU1));
    StoreAt(preComp2, 0, p.mulVec(params.U2, tempLRU[..params.uRank], n, s.mvU2));
    StoreAt(preComp1, 0, p.add(preComp1[..n], preComp2[..n], s.gates.addWU));
  }

  /** From the pre-activation in `preComp1`, leaves `z h` in `preComp3` and
      `(nu + zeta (qOne - z)) c` in `preComp1`; the hidden state is only read. */
  method Gate(p: Primitives, g: GateParams, s: GateScales, h: Vector,
              preComp1: array<int>, preComp2: array<int>, preComp3: array<int>)
    requires Valid(p) && |h| <= |g.Bg| && |h| <= |g.Bh|
    requires |h| <= preComp1.Length && |h| <= preComp2.Length && |h| <= preComp3.Length
    requires preComp1 != preComp2 && preComp1 != preComp3 && preComp2 != preComp3
    modifies preComp1, preComp2, preComp3
    ensures var pre := old(preComp1[..|h|]); var z := UpdateGate(p, g, s, pre);
      && preComp3[..|h|] == p.hadamard(z, h, s.gateHD)
      && preComp2[..|h|] == CandidateWeight(p, g, s, z)
      && preComp1[..|h|] == p.hadamard(CandidateWeight(p, g, s, z), Candidate(p, g, s, pre), s.updateHD)
    ensures preComp1[|h|..] == old(preComp1[|h|..]) && preComp2[|h|..] == old(preComp2[|h|..])
    ensures preComp3[|h|..] == old(preComp3[|h|..])
  {
    var n := |h|;
    ghost var pre := preComp1[..n];
    StoreAt(preComp2, 0, p.add(preComp1[..n], g.Bg[..n], s.addBg));
    StoreAt(preComp2, 0, p.sigmoid(preComp2[..n], s.sigmoid));
    ghost var z := preComp2[..n];
    assert z == UpdateGate(p, g, s, pre);
    StoreAt(preComp1, 0, p.add(preComp1[..n], g.Bh[..n], s.addBh));
    StoreAt(preComp1, 0, p.tanh(preComp1[..n], s.tanh));
    assert preComp1[..n] == Candidate(p, g, s, pre);
    StoreAt(preComp3, 0, p.hadamard(preComp2[..n], h, s.gateHD));
    StoreAt(preComp2, 0, p.scalarSub(s.qOne, preComp2[..n], s.qOneSub));
    StoreAt(preComp2, 0, p.scalarMul(g.zeta, preComp2[..n], s.zetaMul));
    StoreAt(preComp2, 0, p.scalarAdd(g.nu, preComp2[..n], s.nuAdd));
    assert preComp2[..n] == CandidateWeight(p, g, s, z);
    StoreAt(preComp1, 0, p.hadamard(preComp2[..n], preComp1[..n], s.updateHD));
  }

  /** The gate chain and the final sum: only the final sum writes the hidden
      state, which ends as `Mix` of its old value and the pre-activation. */
  method UpdateHidden(p: Primitives, g: GateParams, s: GateScales, hiddenState: array<int>, hiddenDims: nat,
                      preComp1: array<int>, preComp2: array<int>, preComp3: array<int>)
    requires Valid(p) && hiddenDims <= |g.Bg| && hiddenDims <= |g.Bh| && hiddenDims <= hiddenState.Length
    requires hiddenDims <= preComp1.Length && hiddenDims <= preComp2.Length && hiddenDims <= preComp3.Length
    requires hiddenState != preComp1 && hiddenState != preComp2 && hiddenState != preComp3
    requires preComp1 != preComp2 && preComp1 != preComp3 && preComp2 != preComp3
    modifies hiddenState, preComp1, preComp2, preComp3
    ensures hiddenState[..hiddenDims] == Mix(p, g, s, old(hiddenState[..hiddenDims]), old(preComp1[..hiddenDims]))
    ensures hiddenState[hiddenDims..] == old(hiddenState[hiddenDims..])
  {
    Gate(p, g, s, hiddenState[..hiddenDims], preComp1, preComp2, preComp3);
    StoreAt(hiddenState, 0, p.add(preComp3[..hiddenDims], preComp1[..hiddenDims], s.hiddenOut));
  }

  /** One iteration of `q_fastgrnn`'s loop: step `t` of a `steps`-step run.
      Only the final sum writes the hidden state. */
  method StandardStep(hiddenState: array<int>, hiddenDims: nat, input: Vector, inputDims: nat, steps: nat, t: nat,
                      params: Params, scales: Scales, backward: bool, normalize: bool, p: Primitives,
                      preComp1: array<int>, preComp2: array<int>, preComp3: array<int>, normFeatures: array<int>)
    requires t < steps && hiddenDims <= hiddenState.Length
    requires Fits(p, Standard(params, scales), hiddenDims, input, inputDims, steps, normalize)
    requires hiddenDims <= preComp1.Length && hiddenDims <= preComp2.Length && hiddenDims <= preComp3.Length
    requires inputDims <= normFeatures.Length
    requires hiddenState != preComp1 && hiddenState != preComp2 && hiddenState != preComp3
    requires preComp1 != preComp2 && preComp1 != preComp3 && preComp2 != preComp3
    requires normFeatures != hiddenState && normFeatures != preComp1 && normFeatures != preComp2
    requires normFeatures != preComp3
    modifies hiddenState, preComp1, preComp2, preComp3, normFeatures
    ensures hiddenState[..hiddenDims] == Step(p, Standard(params, scales), old(hiddenState[..hiddenDims]),
      Features(p, params.gates, scales.gates, input, inputDims, steps, Offset(steps, t, backward), normalize))
    ensures hiddenState[hiddenDims..] == old(hiddenState[hiddenDims..])
  {
    var offset := Offset(steps, t, backward);
    LoadFeatures(normFeatures, p, params.gates, scales.gates, input, inputDims, steps, offset, normalize);
    Project(p, params, scales, hiddenState[..hiddenDims], normFeatures[..inputDims], preComp1, preComp2);
    UpdateHidden(p, params.gates, scales.gates, hiddenState, hiddenDims, preComp1, preComp2, preComp3);
  }

  /** One iteration of `q_fastgrnn_lr`'s loop. */
  method LowRankStep(hiddenState: array<int>, hiddenDims: nat, input: Vector, inputDims: nat, steps: nat, t: nat,
                     params: LRParams, scales: LRScales, backward: bool, normalize: bool, p: Primitives,
                     preComp1: array<int>, preComp2: array<int>, preComp3: array<int>,
                     tempLRW: array<int>, tempLRU: array<int>, normFeatures: array<int>)
    requires t < steps && hiddenDims <= hiddenState.Length
    requires Fits(p, LowRank(params, scales), hiddenDims, input, inputDims, steps, normalize)
    requires hiddenDims <= preComp1.Length && hiddenDims <= preComp2.Length && hiddenDims <= preComp3.Length
    requires params.wRank <= tempLRW.Length && params.uRank <= tempLRU.Length
    requires inputDims <= normFeatures.Length
    requires Separate([hiddenState, preComp1, preComp2, preComp3, tempLRW, tempLRU, normFeatures])
    modifies hiddenState, preComp1, preComp2, preComp3, tempLRW, tempLRU, normFeatures
    ensures hiddenState[..hiddenDims] == Step(p, LowRank(params, scales), old(hiddenState[..hiddenDims]),
      Features(p, params.gates, scales.gates, input, inputDims, steps, Offset(steps, t, backward), normalize))
    ensures hiddenState[hiddenDims..] == old(hiddenState[hiddenDims..])
  {
    ghost var arrs := [hiddenState, preComp1, preComp2, preComp3, tempLRW, tempLRU, normFeatures];
    assert arrs[0] == hiddenState && arrs[1] == preComp1 && arrs[2] == preComp2 && arrs[3] == preComp3;
    assert arrs[4] == tempLRW && arrs[5] == tempLRU && arrs[6] == normFeatures;
    var offset := Offset(steps, t, backward);
    LoadFeatures(normFeatures, p, params.gates, scales.gates, input, inputDims, steps, offset, normalize);
    ProjectLowRank(p, params, scales, hiddenState[..hiddenDims], normFeatures[..inputDims],
                   preComp1, preComp2, tempLRW, tempLRU);
    UpdateHidden(p, params.gates, scales.gates, hiddenState, hiddenDims, preComp1, preComp2, preComp3);
  }

  /** `q_fastgrnn`: checks the buffers, then runs `steps` steps of the standard
      cell in place. On a missing buffer nothing is written; otherwise the
      first `hiddenDims` entries of `hiddenState` end as `Run` says. */
  method QFastGRNN(hiddenState: array<int>, hiddenDims: nat, input: Vector, inputDims: nat, steps: nat,
                   params: Params, buffers: Buffers, scales: Scales, backward: bool, normalize: bool,
                   p: Primitives) returns (status: Status)
    requires hiddenDims <= hiddenState.Length
    requires Fits(p, Standard(params, scales), hiddenDims, input, inputDims, steps, normalize)
    requires buffers.Ready(hiddenState, hiddenDims, inputDims)
    modifies hiddenState, buffers.Arrays()
    ensures status == BufferStatus(buffers.preComp1 != null, buffers.preComp2 != null,
                                   buffers.preComp3 != null, buffers.normFeatures != null)
    ensures status != Success ==> unchanged(hiddenState) && unchanged(buffers.Arrays())
    ensures status == Success ==>
              hiddenState[..hiddenDims]
              == Run(p, Standard(params, scales), old(hiddenState[..hiddenDims]), input, inputDims, steps, backward, normalize)
    ensures hiddenState[hiddenDims..] == old(hiddenState[hiddenDims..])
  {
    if buffers.preComp1 == null { return PrecompNotInit; }
    if buffers.preComp2 == null { return PrecompNotInit; }
    if buffers.preComp3 == null { return PrecompNotInit; }
    if buffers.normFeatures == null { return NormFeaturesNotInit; }
    var preComp1, preComp2, preComp3, normFeatures :=
      buffers.preComp1, buffers.preComp2, buffers.preComp3, buffers.normFeatures;
    ghost var arrs := [hiddenState, preComp1, preComp2, preComp3, normFeatures];
    assert arrs[0] == hiddenState && arrs[1] == preComp1 && arrs[2] == preComp2;
    assert arrs[3] == preComp3 && arrs[4] == normFeatures;
    ghost var v := Standard(params, scales);
    ghost var h0 := hiddenState[..hiddenDims];
    ghost var xs := Schedule(p, params.gates, scales.gates, input, inputDims, steps, backward, normalize);

    for t := 0 to steps
      invariant hiddenState[..hiddenDims] == Advance(p, v, h0, xs[..t])
      invariant hiddenState[hiddenDims..] == old(hiddenState[hiddenDims..])
    {
      StandardStep(hiddenState, hiddenDims, input, inputDims, steps, t, params, scales, backward, normalize, p,
                   preComp1, preComp2, preComp3, normFeatures);
      AdvanceSnoc(p, v, h0, xs, t);
    }
    assert xs[..steps] == xs;
    return Success;
  }

  /** `q_fastgrnn_lr`: as `QFastGRNN`, with six buffers checked in order and
      the projections through the rank-sized intermediates. */
  method QFastGRNNLR(hiddenState: array<int>, hiddenDims: nat, input: Vector, inputDims: nat, steps: nat,
                     params: LRParams, buffers: LRBuffers, scales: LRScales, backward: bool, normalize: bool,
                     p: Primitives) returns (status: Status)
    requires hiddenDims <= hiddenState.Length
    requires Fits(p, LowRank(params, scales), hiddenDims, input, inputDims, steps, normalize)
    requires buffers.Ready(hiddenState, hiddenDims, inputDims, params.wRank, params.uRank)
    modifies hiddenState, buffers.Arrays()
    ensures status == LRBufferStatus(buffers.preComp1 != null, buffers.preComp2 != null, buffers.preComp3 != null,
                                     buffers.tempLRW != null, buffers.tempLRU != null, buffers.normFeatures != null)
    ensures status != Success ==> unchanged(hiddenState) && unchanged(buffers.Arrays())
    ensures status == Success ==>
              hiddenState[..hiddenDims]
              == Run(p, LowRank(params, scales), old(hiddenState[..hiddenDims]), input, inputDims, steps, backward, normalize)
    ensures hiddenState[hiddenDims..] == old(hiddenState[hiddenDims..])
  {
    if buffers.preComp1 == null { return PrecompNotInit; }
    if buffers.preComp2 == null { return PrecompNotInit; }
    if buffers.preComp3 == null { return PrecompNotInit; }
    if buffers.tempLRW == null { return TempLRWNotInit; }
    if buffers.tempLRU == null { return TempLRUNotInit; }
    if buffers.normFeatures == null { return NormFeaturesNotInit; }
    var preComp1, preComp2, preComp3 := buffers.preComp1, buffers.preComp2, buffers.preComp3;
    var tempLRW, tempLRU, normFeatures := buffers.tempLRW, buffers.tempLRU, buffers.normFeatures;
    ghost var v := LowRank(params, scales);
    ghost var h0 := hiddenState[..hiddenDims];
    ghost var xs := Schedule(p, params.gates, scales.gates, input, inputDims, steps, backward, normalize);

    for t := 0 to steps
      invariant hiddenState[..hiddenDims] == Advance(p, v, h0, xs[..t])
      invariant hiddenState[hiddenDims..] == old(hiddenState[hiddenDims..])
    {
      LowRankStep(hiddenState, hiddenDims, input, inputDims, steps, t, params, scales, backward, normalize, p,
                  preComp1, preComp2, preComp3, tempLRW, tempLRU, normFeatures);
      AdvanceSnoc(p, v, h0, xs, t);
    }
    assert xs[..steps] == xs;
    return Success;
  }
}
