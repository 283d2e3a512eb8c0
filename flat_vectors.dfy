/** Flat vector layout shared by the recurrent cells and the pooling block.
    A sequence of `n` vectors of `d` entries each is stored back to back, and
    vector `k` is addressed as `base + k * d`, as the C code does. */
module FlatVectors {

  /** A vector of `n` zero entries: what `memset(p, 0, n * sizeof(INT_T))` leaves. */
  function Zeros(n: nat): (z: seq<int>)
    ensures |z| == n
    ensures forall i :: 0 <= i < n ==> z[i] == 0
  {
    seq(n, _ => 0)
  }

  lemma {:induction false} MulMonotone(a: nat, b: nat, c: nat)
    requires a <= b
    ensures a * c <= b * c
    decreases c
  {
    if c > 0 {
      MulMonotone(a, b, c - 1);
      assert a * c == a * (c - 1) + a;
      assert b * c == b * (c - 1) + b;
    }
  }

  /** Vector `k` of a block of `n` vectors lies inside the block. */
  lemma VecInBounds(k: nat, n: nat, d: nat)
    requires k < n
    ensures k * d + d <= n * d
  {
    MulMonotone(k + 1, n, d);
    assert (k + 1) * d == k * d + d;
  }

  /** The `d` entries of vector `k` of a block of `n` vectors, read from
      `x + k * d`. */
  function VecAt(x: seq<int>, n: nat, d: nat, k: nat): (v: seq<int>)
    requires n * d <= |x| && k < n
    ensures k * d + d <= n * d
    ensures |v| == d
  {
    VecInBounds(k, n, d);
    x[k * d .. k * d + d]
  }

  /** Vector `k` of a prefix holding `m` vectors is vector `k` of the whole block. */
  lemma VecAtPrefix(x: seq<int>, n: nat, m: nat, d: nat, k: nat)
    requires n * d <= |x| && k < m <= n
    ensures m * d <= n * d
    ensures VecAt(x[..m * d], m, d, k) == VecAt(x, n, d, k)
  {
    MulMonotone(m, n, d);
  }

  /** The same `n` vectors of `d` entries in the opposite order. */
  function ReverseVectors(x: seq<int>, n: nat, d: nat): (r: seq<int>)
    requires n * d <= |x|
    ensures |r| == n * d
    decreases n
  {
    if n == 0 then []
    else
      assert n * d == (n - 1) * d + d;
      VecAt(x, n, d, n - 1) + ReverseVectors(x, n - 1, d)
  }

  /** Vector `k` of the reversed block is vector `n - 1 - k` of the original. */
  lemma {:induction false} ReverseVectorsAt(x: seq<int>, n: nat, d: nat, k: nat)
    requires n * d <= |x|
    requires k < n
    ensures VecAt(ReverseVectors(x, n, d), n, d, k) == VecAt(x, n, d, n - 1 - k)
    decreases n
  {
    assert n * d == (n - 1) * d + d;
    var rest := ReverseVectors(x, n - 1, d);
    var r := ReverseVectors(x, n, d);
    assert r == VecAt(x, n, d, n - 1) + rest;
    if k > 0 {
      ReverseVectorsAt(x, n - 1, d, k - 1);
      assert k * d == (k - 1) * d + d;
      assert r[k * d .. k * d + d] == rest[(k - 1) * d .. (k - 1) * d + d];
    }
  }

  /** Two blocks of `n` vectors are equal when every vector is. */
  lemma {:induction false} BlocksEqual(a: seq<int>, b: seq<int>, n: nat, d: nat)
    requires |a| == n * d && |b| == n * d
    requires forall k :: 0 <= k < n ==> VecAt(a, n, d, k) == VecAt(b, n, d, k)
    ensures a == b
    decreases n
  {
    if n > 0 {
      var n', m := n - 1, (n - 1) * d;
      assert n * d == m + d;
      var a', b' := a[..m], b[..m];
      forall k | 0 <= k < n'
        ensures VecAt(a', n', d, k) == VecAt(b', n', d, k)
      {
        VecAtPrefix(a, n, n', d, k);
        VecAtPrefix(b, n, n', d, k);
      }
      BlocksEqual(a', b', n', d);
      assert VecAt(a, n, d, n - 1) == VecAt(b, n, d, n - 1);
      assert a == a[..m] + VecAt(a, n, d, n - 1);
      assert b == b[..m] + VecAt(b, n, d, n - 1);
    }
  }

  /** Reversing a block whose vectors are all equal gives the block back. */
  lemma ReverseUniform(x: seq<int>, n: nat, d: nat)
    requires |x| == n * d
    requires forall k :: 0 <= k < n ==> VecAt(x, n, d, k) == VecAt(x, n, d, 0)
    ensures ReverseVectors(x, n, d) == x
  {
    forall k | 0 <= k < n
      ensures VecAt(ReverseVectors(x, n, d), n, d, k) == VecAt(x, n, d, k)
    {
      ReverseVectorsAt(x, n, d, k);
    }
    BlocksEqual(ReverseVectors(x, n, d), x, n, d);
  }

  lemma Distribute(a: nat, b: nat, d: nat)
    ensures (a + b) * d == a * d + b * d
  {
  }

  /** Vector `k` of a block that starts at `start` of `x` is read from
      `x + start + k * d`. */
  lemma VecAtSlice(x: seq<int>, start: nat, n: nat, d: nat, k: nat)
    requires start + n * d <= |x| && k < n
    ensures start + k * d + d <= |x|
    ensures VecAt(x[start .. start + n * d], n, d, k) == x[start + k * d .. start + k * d + d]
  {
    VecInBounds(k, n, d);
    var block := x[start .. start + n * d];
    var from := k * d;
    assert block[from .. from + d] == x[start + from .. start + from + d];
  }

  /** Vectors of `d` entries each, stored back to back. */
  function Flatten(vs: seq<seq<int>>, d: nat): (x: seq<int>)
    requires forall i :: 0 <= i < |vs| ==> |vs[i]| == d
    ensures |x| == |vs| * d
    decreases |vs|
  {
    if |vs| == 0 then []
    else
      assert |vs| * d == (|vs| - 1) * d + d;
      Flatten(vs[..|vs| - 1], d) + vs[|vs| - 1]
  }

  /** Vector `k` of a flattened block is the `k`-th vector. */
  lemma {:induction false} FlattenAt(vs: seq<seq<int>>, d: nat, k: nat)
    requires forall i :: 0 <= i < |vs| ==> |vs[i]| == d
    requires k < |vs|
    ensures VecAt(Flatten(vs, d), |vs|, d, k) == vs[k]
    decreases |vs|
  {
    var n := |vs|;
    var front := vs[..n - 1];
    assert n * d == (n - 1) * d + d;
    if k < n - 1 {
      FlattenAt(front, d, k);
      VecInBounds(k, n - 1, d);
    }
  }

  /** Writes `v` over `dst[start .. start + |v|]` and leaves every other entry
      alone: how a primitive or a cell stores its result through a pointer. */
  method StoreAt(dst: array<int>, start: nat, v: seq<int>)
    requires start + |v| <= dst.Length
    modifies dst
    ensures dst[start .. start + |v|] == v
    ensures dst[..start] == old(dst[..start])
    ensures dst[start + |v| ..] == old(dst[start + |v| ..])
    ensures dst[..start + |v|] == old(dst[..start]) + v
  {
    forall i | start <= i < start + |v| {
      dst[i] := v[i - start];
    }
  }

  /** `memset(dst, 0, n * sizeof(INT_T))`: the first `n` entries become zero. */
  method Clear(dst: array<int>, n: nat)
    requires n <= dst.Length
    modifies dst
    ensures dst[..n] == Zeros(n)
    ensures dst[n..] == old(dst[n..])
  {
    forall i | 0 <= i < n {
      dst[i] := 0;
    }
  }
}
