/**
  Where the host puts the kernels' three scratch buffers: behind the output tensor, in the same
  buffer, within the size reported when that buffer was allocated.
*/
module MoeScratch {
  import opened Arith

  /** `ROUNDUP_POW2` for a power of two: the least multiple of `a` that is not below `x`. */
  function RoundUp(x: nat, a: nat): (y: nat)
    requires a > 0
  {
    CeilDiv(x, a) * a
  }

  /** Granularity of a storage binding's size, and the size of an index in a gathered buffer. */
  const BINDING_MULT: nat := 4
  const INDEX_BYTES: nat := 4

  /** A byte range of the output tensor's buffer. */
  datatype Span = Span(start: nat, size: nat)
  {
    function End(): nat { start + size }
    predicate Before(other: Span) { End() <= other.start }
  }

  /** The binding sizes and offsets the host computes for the scratch buffers. */
  datatype Layout = Layout(expertUsed: Span, tokens: Span, counts: Span)

  function ScratchLayout(dstOffset: nat, dstBytes: nat, nExpert: nat, nTokens: nat, align: nat): Layout
    requires align > 0
  {
    var gathered := nExpert * nTokens * INDEX_BYTES;
    var used := RoundUp(dstOffset + dstBytes, align);
    var tokens := RoundUp(used + gathered, align);
    var counts := RoundUp(tokens + gathered, align);
    Layout(Span(used, RoundUp(gathered, BINDING_MULT)),
           Span(tokens, RoundUp(gathered, BINDING_MULT)),
           Span(counts, RoundUp(nExpert * INDEX_BYTES, BINDING_MULT)))
  }

  /** The size reported for a `MUL_MAT_ID` output whose own data needs `res` bytes. */
  function AllocSize(res: nat, nExpert: nat, nTokens: nat, align: nat): nat {
    var gathered := INDEX_BYTES * nExpert * nTokens;
    RoundUp(res + gathered * 2 + INDEX_BYTES * nExpert + align * 3, BINDING_MULT)
  }

  lemma RoundUpBounds(x: nat, a: nat)
    requires a > 0
    ensures x <= RoundUp(x, a) < x + a && RoundUp(x, a) % a == 0
  {
    var q := CeilDiv(x, a);
    DivModOf(x + a - 1, a);
    DivModUnique(q * a, q, 0, a);
  }

  lemma RoundUpMultiple(x: nat, a: nat)
    requires a > 0 && x % a == 0
    ensures RoundUp(x, a) == x
  {
    DivModOf(x, a);
    DivModUnique(x + a - 1, x / a, a - 1, a);
  }

  /** Rounding up is the least aligned value, so the layout wastes less than one alignment step each time. */
  lemma RoundUpIsLeast(x: nat, a: nat, y: nat)
    requires a > 0 && x <= y && y % a == 0
    ensures RoundUp(x, a) <= y
  {
    RoundUpBounds(x, a);
    DivModOf(y, a);
    if y / a < CeilDiv(x, a) {
      CeilDivCounts(x, a, y / a);
    }
    MulLe(CeilDiv(x, a), y / a, a);
  }

  lemma MultipleOfMultiple(x: nat, a: nat, b: nat)
    requires a > 0 && b > 0 && x % a == 0 && a % b == 0
    ensures x % b == 0
  {
    DivModOf(x, a);
    DivModOf(a, b);
    var q := (x / a) * (a / b);
    assert x == q * b;
    MulLe(0, x / a, a / b);
    DivModUnique(x, q, 0, b);
  }

  /**
    For every tensor size and offset, and every alignment that is a power of two and a multiple of
    the binding granularity: the scratch spans are aligned, follow the output's data and each other
    without overlap, hold one index of four bytes per cell, and end inside the reported allocation, which
    is at most three alignment steps and three bytes more than what they take.
   */
  lemma ScratchFits(dstOffset: nat, dstBytes: nat, res: nat, nExpert: nat, nTokens: nat, bits: nat)
    requires res >= dstBytes && Pow2(bits) % BINDING_MULT == 0
    ensures var align := Pow2(bits);
            var l := ScratchLayout(dstOffset, dstBytes, nExpert, nTokens, align);
            && l.expertUsed.start % align == 0 && l.tokens.start % align == 0 && l.counts.start % align == 0
            && l.expertUsed.start % 4 == 0 && l.tokens.start % 4 == 0 && l.counts.start % 4 == 0
            && Span(dstOffset, dstBytes).Before(l.expertUsed)
            && l.expertUsed.Before(l.tokens) && l.tokens.Before(l.counts)
            && l.expertUsed.size == l.tokens.size == 4 * (nExpert * nTokens)
            && l.counts.size == 4 * nExpert
            && l.counts.End() <= dstOffset + AllocSize(res, nExpert, nTokens, align)
            && AllocSize(res, nExpert, nTokens, align) % 4 == 0
            && AllocSize(res, nExpert, nTokens, align) <= res + 8 * (nExpert * nTokens) + 4 * nExpert + 3 * align + 3
  {
    var align := Pow2(bits);
    var gathered := nExpert * nTokens * INDEX_BYTES;
    DivModUnique(gathered, nExpert * nTokens, 0, INDEX_BYTES);
    DivModUnique(nExpert * INDEX_BYTES, nExpert, 0, INDEX_BYTES);
    RoundUpMultiple(gathered, BINDING_MULT);
    RoundUpMultiple(nExpert * INDEX_BYTES, BINDING_MULT);
    assert INDEX_BYTES * nExpert * nTokens == gathered;
    var l := ScratchLayout(dstOffset, dstBytes, nExpert, nTokens, align);
    RoundUpBounds(dstOffset + dstBytes, align);
    RoundUpBounds(l.expertUsed.start + gathered, align);
    RoundUpBounds(l.tokens.start + gathered, align);
    MultipleOfMultiple(l.expertUsed.start, align, BINDING_MULT);
    MultipleOfMultiple(l.tokens.start, align, BINDING_MULT);
    MultipleOfMultiple(l.counts.start, align, BINDING_MULT);
    RoundUpBounds(res + gathered * 2 + INDEX_BYTES * nExpert + align * 3, BINDING_MULT);
  }

  /** Two alignment steps of slack would not do: here the layout ends past an allocation sized that way. */
  lemma ThirdStepIsNeeded()
    ensures var l := ScratchLayout(0, 4, 1, 1, 256);
            l.counts.End() > RoundUp(4 + 4 * 2 + 4 + 256 * 2, BINDING_MULT)
  {
  }
}
