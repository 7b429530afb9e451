/**
  The attention kernel the fused node runs: scores from scaled products and a prepared mask, and values
  weighted by the softmax of the scores.
*/
module AttentionKernel {
  import opened Wrappers
  import opened Tensors
  import opened GraphValues
  import opened CausalMask
  import opened HeadLayout
  import opened PastState

  type Divisor = r: real | r != 0.0 witness 1.0

  /** `mask_index` and its dimensions. */
  datatype MaskIndex = MaskIndex(data: seq<int>, dims: seq<nat>)

  /** What the kernel is given: projected rows, past state, mask, and the square root of the head size. */
  datatype Task = Task(z: Sizes, q: RealTensor, k: RealTensor, v: RealTensor, state: RealTensor, past: nat,
                       mask: Option<MaskIndex>, unidirectional: bool, root: Divisor)
  {
    /** Length of the past and the new rows together. */
    function Total(): nat {
      past + z.length
    }
  }

  // ----- The prepared mask

  /** What the mask itself says about key `t` for row `s` of batch `b`. */
  predicate HiddenByMask(m: MaskIndex, batch: nat, length: nat, total: nat, b: nat, s: nat, t: nat) {
    if |m.dims| == 3 then EntryAt(m, (b * length + s) * total + t) <= 0
    else if |m.dims| == 2 then EntryAt(m, b * total + t) <= 0
    else t >= EntryAt(m, b) || (HasStarts(m, batch) && t < EntryAt(m, b + batch))
  }

  function EntryAt(m: MaskIndex, k: int): int {
    if 0 <= k < |m.data| then m.data[k] else 0
  }

  /** A vector of ends may be followed by as many starts. */
  predicate HasStarts(m: MaskIndex, batch: nat) {
    |m.dims| == 1 && m.dims[0] == 2 * batch
  }

  /** What is added to the score of key `t` for row `s` of batch `b`. */
  function MaskValue(m: Option<MaskIndex>, unidirectional: bool, batch: nat, length: nat, past: nat,
                     b: nat, s: nat, t: nat): real
  {
    (if m.Some? && HiddenByMask(m.value, batch, length, past + length, b, s, t) then HIDDEN else 0.0)
    + (if unidirectional && t > past + s then HIDDEN else 0.0)
  }

  // ----- Scores and result

  /** Key `t`: of the past, or projected from a new row. */
  function KernelKey(k: Task, b: nat, n: nat, t: nat, h: nat): real {
    if t < k.past then Get(k.state, [0, b, n, t, h]) else HeadOf(k.k, k.z, b, n, t - k.past, h)
  }

  function KernelValue(k: Task, b: nat, n: nat, t: nat, h: nat): real {
    if t < k.past then Get(k.state, [1, b, n, t, h]) else HeadOf(k.v, k.z, b, n, t - k.past, h)
  }

  /** The product of query `s` and key `t`. */
  function KeyProduct(k: Task, b: nat, n: nat, s: nat, t: nat): real {
    Sum(k.z.headSize, (h: nat) => HeadOf(k.q, k.z, b, n, s, h) * KernelKey(k, b, n, t, h))
  }

  function KernelScore(k: Task, b: nat, n: nat, s: nat, t: nat): real
  {
    KeyProduct(k, b, n, s, t) / k.root
    + MaskValue(k.mask, k.unidirectional, k.z.batch, k.z.length, k.past, b, s, t)
  }

  function ScoreRow(k: Task, b: nat, n: nat, s: nat): seq<real>
  {
    seq(k.Total(), (t: nat) => KernelScore(k, b, n, s, t))
  }

  function At(row: seq<real>, t: nat): real {
    if t < |row| then row[t] else 0.0
  }

  /** Element `h` of head `n` in row `s` of the result. */
  function KernelResult(k: Task, softmax: Softmaxing, b: nat, s: nat, n: nat, h: nat): real
  {
    Sum(k.Total(), (t: nat) => At(softmax(ScoreRow(k, b, n, s)), t) * KernelValue(k, b, n, t, h))
  }
}
