/** The fixed-point primitive layer the recurrent cells are built from
    (`v_q_add`, `v_q_sub`, `v_q_hadamard`, `v_q_scalar_add`, `v_q_scalar_sub`,
    `v_q_scalar_mul`, `m_q_mulvec`, `v_q_sigmoid`, `v_q_tanh`). Their bodies
    are outside this model: each is an arbitrary function, supplied by the
    caller, about which only its output length is known. */
module QuantizedPrimitives {

  type Vector = seq<int>

  /** Scales of an elementwise sum or difference: one per operand and one for
      the result (`v_q_add`, `v_q_sub`, `v_q_scalar_add`, `v_q_scalar_sub`). */
  datatype AddScales = AddScales(a: int, b: int, out: int)

  /** Scales of an elementwise product, one per operand (`v_q_hadamard`,
      `v_q_scalar_mul`). */
  datatype MulScales = MulScales(a: int, b: int)

  /** Scales of `m_q_mulvec`: matrix, vector and the two accumulation stages. */
  datatype MatVecScales = MatVecScales(mat: int, vec: int, h1: int, h2: int)

  /** Scales of `v_q_sigmoid`: divisor, offset, saturation limit, input and output scale. */
  datatype SigmoidScales = SigmoidScales(div: int, add: int, limit: int, scaleIn: int, scaleOut: int)

  /** Scales of `v_q_tanh`: input and output scale. */
  datatype TanhScales = TanhScales(scaleIn: int, scaleOut: int)

  /** One implementation of the primitive layer. `mulVec(m, v, rows, s)` is the
      `rows`-entry product of matrix `m` with `v`; the scalar operations take
      the scalar first, as their C counterparts do. */
  datatype Primitives = Primitives(
    add: (Vector, Vector, AddScales) -> Vector,
    sub: (Vector, Vector, AddScales) -> Vector,
    hadamard: (Vector, Vector, MulScales) -> Vector,
    scalarAdd: (int, Vector, AddScales) -> Vector,
    scalarSub: (int, Vector, AddScales) -> Vector,
    scalarMul: (int, Vector, MulScales) -> Vector,
    mulVec: (Vector, Vector, nat, MatVecScales) -> Vector,
    sigmoid: (Vector, SigmoidScales) -> Vector,
    tanh: (Vector, TanhScales) -> Vector)

  /** The length contract of the primitive layer: elementwise operations keep
      the length of their operands, and a matrix-vector product has one entry
      per matrix row. */
  ghost predicate Valid(p: Primitives) {
    && (forall a, b, s :: |a| == |b| ==> |p.add(a, b, s)| == |a|)
    && (forall a, b, s :: |a| == |b| ==> |p.sub(a, b, s)| == |a|)
    && (forall a, b, s :: |a| == |b| ==> |p.hadamard(a, b, s)| == |a|)
    && (forall c, v, s :: |p.scalarAdd(c, v, s)| == |v|)
    && (forall c, v, s :: |p.scalarSub(c, v, s)| == |v|)
    && (forall c, v, s :: |p.scalarMul(c, v, s)| == |v|)
    && (forall m, v, rows, s :: |p.mulVec(m, v, rows, s)| == rows)
    && (forall v, s :: |p.sigmoid(v, s)| == |v|)
    && (forall v, s :: |p.tanh(v, s)| == |v|)
  }
}
