/** Automatic padding of one dimension and the output size it leads to. */
module Padding {
  datatype AutoPadType = NOTSET | VALID | SAME_UPPER | SAME_LOWER

  /** Integer division as in the source: towards zero. */
  function TruncDiv(a: int, b: int): int
    requires b > 0
  {
    if a >= 0 then a / b else -(-a / b)
  }

  /** How many steps of `stride` it takes to cover `n`. */
  function CeilDiv(n: nat, stride: int): (k: int)
    requires stride > 0
    ensures (k - 1) * stride < n <= k * stride
  {
    var k := (n + stride - 1) / stride;
    assert k * stride + (n + stride - 1) % stride == n + stride - 1;
    k
  }

  /** The padding that lets windows cover the input, before it is made even. */
  function PadNeeded(inDim: nat, stride: int, kernel: int): int
    requires stride > 0
  {
    (CeilDiv(inDim, stride) - 1) * stride + kernel - inDim
  }

  predicate Same(padType: AutoPadType) {
    padType == SAME_UPPER || padType == SAME_LOWER
  }

  /** The padding in all, made even on demand. */
  function PadTotal(inDim: nat, stride: int, kernel: int, force: bool): (total: int)
    requires stride > 0
    ensures total == PadNeeded(inDim, stride, kernel) || (force && total == PadNeeded(inDim, stride, kernel) + 1)
    ensures force ==> total % 2 == 0
  {
    var needed := PadNeeded(inDim, stride, kernel);
    if force && needed % 2 == 1 then needed + 1 else needed
  }

  /** The part of the padding in front. */
  function PadHead(total: int, padType: AutoPadType): int {
    if padType == SAME_LOWER then TruncDiv(total + 1, 2) else TruncDiv(total, 2)
  }

  /** Both paddings; `ok` is false and both are left alone for a dilated window with SAME padding. */
  method ComputePad(inDim: nat, stride: int, kernel: int, dilation: int, padType: AutoPadType,
                    head: int, tail: int, force: bool) returns (ok: bool, padHead: int, padTail: int)
    requires stride > 0
    ensures ok <==> !(Same(padType) && dilation != 1)
    ensures !ok || padType == NOTSET ==> padHead == head && padTail == tail
    ensures padType == VALID ==> padHead == 0 && padTail == 0
    ensures ok && Same(padType) ==>
      var total := PadTotal(inDim, stride, kernel, force);
      padHead == PadHead(total, padType) && padTail == total - padHead
  {
    padHead, padTail := head, tail;
    ok := true;
    if padType == VALID {
      padHead := 0;
      padTail := 0;
    } else if Same(padType) {
      if dilation != 1 { return false, padHead, padTail; }
      var legacyTargetSize := TruncDiv(inDim + stride - 1, stride);
      var padNeeded := (legacyTargetSize - 1) * stride + kernel - inDim;
      if force {
        padNeeded := padNeeded + 1 - (padNeeded + 1) % 2;
      }
      if padType == SAME_LOWER {
        padHead := TruncDiv(padNeeded + 1, 2);
      } else {
        padHead := TruncDiv(padNeeded, 2);
      }
      padTail := padNeeded - padHead;
    }
  }

  /**
    How SAME padding is split, in terms of the total that a caller can compute beforehand: head and tail
    differ by at most one, the odd one at the side the type names, unless SAME_LOWER splits a negative
    even total; that is split with a difference of two.
  */
  lemma SplitIsEvenIff(total: int, padType: AutoPadType)
    requires Same(padType)
    ensures var head := PadHead(total, padType); var tail := total - head;
      && (-1 <= head - tail <= 1 <==> !(padType == SAME_LOWER && total < 0 && total % 2 == 0))
      && (!(-1 <= head - tail <= 1) ==> head - tail == 2)
      && (total >= 0 ==> if padType == SAME_UPPER then head <= tail else tail <= head)
      && (total < 0 ==> tail <= head)
  {}

  /** A forced total is even, and is split into halves exactly if the type is SAME_UPPER or it is not negative. */
  lemma ForcedSplitIff(inDim: nat, stride: int, kernel: int, padType: AutoPadType)
    requires stride > 0 && Same(padType)
    ensures var total := PadTotal(inDim, stride, kernel, true);
      PadHead(total, padType) == total - PadHead(total, padType) <==> padType == SAME_UPPER || total >= 0
  {
    var total := PadTotal(inDim, stride, kernel, true);
    hide PadTotal;
    assert total % 2 == 0;
  }

  /** An uneven split: three elements, stride three and a window of one need a total of -2. */
  lemma UnevenSplit()
    ensures PadTotal(3, 3, 1, false) == -2
    ensures PadHead(-2, SAME_LOWER) == 0 && -2 - PadHead(-2, SAME_LOWER) == -2
  {
    assert CeilDiv(3, 3) == 1;
  }

  /** The number of window positions; exact division stands for the floating-point one. */
  function ComputeOutputShape(inDim: nat, stride: int, kernel: int, dilation: int, padHead: int, padTail: int): int
    requires stride > 0
  {
    var dkernel := dilation * (kernel - 1) + 1;
    TruncDiv(inDim + padHead + padTail - dkernel + stride, stride)
  }

  /** Windows at `0, stride, 2 * stride, …`: exactly the counted ones end inside the padded input. */
  lemma OutputCountsWindows(inDim: nat, stride: int, kernel: int, dilation: int, padHead: int, padTail: int, i: nat)
    requires stride > 0
    ensures var dkernel := dilation * (kernel - 1) + 1;
      i < ComputeOutputShape(inDim, stride, kernel, dilation, padHead, padTail)
      <==> i * stride + dkernel <= inDim + padHead + padTail
  {
    var room := inDim + padHead + padTail - (dilation * (kernel - 1) + 1);
    FitsRoom(room, stride, i);
  }

  lemma FitsRoom(room: int, stride: int, i: nat)
    requires stride > 0
    ensures i < TruncDiv(room + stride, stride) <==> i * stride <= room
  {
    if room + stride >= 0 {
      var q := (room + stride) / stride;
      QuotientBrackets(room + stride, stride);
      MultiplesGrow(i + 1, q, stride);
      MultiplesGrow(q, i, stride);
    } else {
      MultiplesGrow(0, i, stride);
    }
  }

  lemma QuotientBrackets(a: nat, b: int)
    requires b > 0
    ensures a / b * b <= a < a / b * b + b
  {
    assert a == a / b * b + a % b;
  }

  lemma MultiplesGrow(i: int, j: int, stride: int)
    requires stride > 0
    ensures i <= j ==> i * stride <= j * stride
    ensures i * stride == (i - 1) * stride + stride
  {
    if i <= j {
      assert (j - i) * stride >= 0;
    }
  }

  /**
    With SAME padding there is one output per started stride, even where windows are so small that the
    padding is negative. Making the padding even changes that in one case only: stride one and an even
    window, where it adds one output.
  */
  method ComputePadAndOutputShape(inDim: nat, stride: int, kernel: int, dilation: int, padType: AutoPadType,
                                  head: int, tail: int, force: bool)
    returns (ok: bool, padHead: int, padTail: int, outDim: int)
    requires stride > 0
    ensures ok <==> !(Same(padType) && dilation != 1)
    ensures ok ==> outDim == ComputeOutputShape(inDim, stride, kernel, dilation, padHead, padTail)
    ensures ok && Same(padType) ==>
      outDim == CeilDiv(inDim, stride) + if force && stride == 1 && kernel % 2 == 0 then 1 else 0
  {
    hide PadNeeded, CeilDiv, TruncDiv;
    outDim := 0;
    ok, padHead, padTail := ComputePad(inDim, stride, kernel, dilation, padType, head, tail, force);
    if !ok { return; }
    outDim := ComputeOutputShape(inDim, stride, kernel, dilation, padHead, padTail);
    if Same(padType) {
      var total := padHead + padTail;
      SameOutput(inDim, stride, kernel, total - PadNeeded(inDim, stride, kernel), total);
      if stride == 1 { StrideOnePadding(inDim, kernel); }
    }
  }

  lemma CeilIsNatural(n: nat, stride: int)
    requires stride > 0
    ensures CeilDiv(n, stride) >= 0
  {}

  lemma ExactOutput(outputs: nat, stride: int, extra: int)
    requires stride > 0 && 0 <= extra <= 1
    ensures TruncDiv(outputs * stride + extra, stride) == outputs + (if stride == 1 then extra else 0)
  {
    hide TruncDiv;
    var product := outputs * stride;
    assert (outputs + 1) * stride == product + stride && (outputs - 1) * stride == product - stride;
    if outputs > 0 {
      FitsRoom(product - stride + extra, stride, outputs - 1);
    }
    FitsRoom(product - stride + extra, stride, outputs);
    FitsRoom(product - stride + extra, stride, outputs + 1);
    OutputNotNegative(product + extra, stride);
  }

  lemma OutputNotNegative(a: nat, b: int)
    requires b > 0
    ensures TruncDiv(a, b) >= 0
  {}

  lemma SameOutput(inDim: nat, stride: int, kernel: int, extra: int, total: int)
    requires stride > 0 && 0 <= extra <= 1 && total == PadNeeded(inDim, stride, kernel) + extra
    ensures ComputeOutputShape(inDim, stride, kernel, 1, total, 0)
         == CeilDiv(inDim, stride) + if stride == 1 then extra else 0
  {
    hide TruncDiv, CeilDiv;
    CeilIsNatural(inDim, stride);
    var outputs := CeilDiv(inDim, stride);
    assert (outputs - 1) * stride == outputs * stride - stride;
    assert 1 * (kernel - 1) + 1 == kernel;
    ExactOutput(outputs, stride, extra);
  }

  /** The padding is the least that lets windows start at every stride of the input. */
  lemma PadNeededIsLeast(inDim: nat, stride: int, kernel: int, pad: int)
    requires stride > 0 && inDim > 0
    ensures PadNeeded(inDim, stride, kernel) <= pad
       <==> CeilDiv(inDim, stride) <= ComputeOutputShape(inDim, stride, kernel, 1, pad, 0)
  {
    hide CeilDiv, ComputeOutputShape;
    CeilIsPositive(inDim, stride);
    OutputCountsWindows(inDim, stride, kernel, 1, pad, 0, CeilDiv(inDim, stride) - 1);
  }

  lemma CeilIsPositive(n: nat, stride: int)
    requires stride > 0 && n > 0
    ensures CeilDiv(n, stride) > 0
  {}

  /** The padding is never negative once a window is as wide as a stride. */
  lemma WideWindowsNeedPadding(inDim: nat, stride: int, kernel: int)
    requires stride > 0 && kernel >= stride
    ensures PadNeeded(inDim, stride, kernel) >= 0
  {
    assert (CeilDiv(inDim, stride) - 1) * stride == CeilDiv(inDim, stride) * stride - stride;
  }

  /** With stride one, whether the padding is odd depends on the window alone. */
  lemma StrideOnePadding(inDim: nat, kernel: int)
    ensures PadNeeded(inDim, 1, kernel) == kernel - 1
  {
    assert CeilDiv(inDim, 1) == inDim;
  }
}
