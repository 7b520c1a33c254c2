/**
  The output of `MUL_MAT_ID` written out in buffer cells: which routing entry, which weights and which
  activations make up which output cell.
 */
module MoeResult {
  import opened Arith
  import opened MoeShape
  import opened MoeMatmul

  /** The inner product of two rows of numbers. */
  function Inner(x: seq<real>, y: seq<real>): real
    requires |x| == |y|
  {
    if x == [] then 0.0 else Inner(x[..|x| - 1], y[..|y| - 1]) + x[|x| - 1] * y[|y| - 1]
  }

  /** Cell `i` of a strided stretch. */
  function Index(base: nat, i: nat, stride: nat): nat { base + i * stride }

  /**
    The cell of (row, slot, token), where `slot` is number `lane` in its turn through the token's
    activation rows: the inner product of the chosen expert's weight row and activation row `lane`.
   */
  ghost predicate CellIs(c: Shape, r: Routing, d: Operands, dst: seq<real>, row: nat, token: nat, lane: nat, turn: nat) {
    var slot := Index(lane, turn, c.bNe1);
    row < c.m && token < c.nTokens && lane < c.bNe1 && slot < c.nUsed ==>
      var id := Index(r.offset, token, r.stride) + slot;
      var cell := Index(d.offsetDst, Index(slot, token, c.nUsed), c.m) + row;
      && id < |r.cells| && 0 <= r.cells[id] < c.nExpert && cell < |dst|
      && var w := Index(Index(d.offset0, r.cells[id], d.stride02), row, d.stride01);
      var a := Index(Index(d.offset1, token, d.stride12), lane, d.stride11);
      if c.k == 0 then dst[cell] == 0.0
      else
        && w + c.k <= |d.src0| && a + c.k <= |d.src1|
        && dst[cell] == Inner(d.src0[w..w + c.k], d.src1[a..a + c.k])
  }

  lemma InnerStep(x: seq<real>, y: seq<real>, i: nat, j: nat, n: nat)
    requires n > 0 && i + n <= |x| && j + n <= |y|
    ensures Inner(x[i..i + n], y[j..j + n]) == Inner(x[i..i + n - 1], y[j..j + n - 1]) + x[i + n - 1] * y[j + n - 1]
  {
    assert x[i..i + n][..n - 1] == x[i..i + n - 1] && y[j..j + n][..n - 1] == y[j..j + n - 1];
  }

  /** The partial dot products of the kernel are inner products of stretches of the operands. */
  lemma {:induction false} DotIsInner(c: Shape, d: Operands, e: nat, row: nat, token: nat, slot: nat, w: nat, a: nat, n: nat)
    requires c.bNe1 > 0 && w + n <= |d.src0| && a + n <= |d.src1|
    requires forall k: nat {:trigger d.Weight(e, row, k)} :: k < n ==> d.Weight(e, row, k) == d.src0[w + k]
    requires forall k: nat {:trigger d.Activation(token, LaneOf(c, slot), k)} :: k < n ==> d.Activation(token, LaneOf(c, slot), k) == d.src1[a + k]
    ensures Dot(c, d, e, row, token, slot, n) == Inner(d.src0[w..w + n], d.src1[a..a + n])
  {
    hide Inner, LaneOf, Operands.Weight, Operands.Activation;
    if n > 0 {
      DotIsInner(c, d, e, row, token, slot, w, a, n - 1);
      InnerStep(d.src0, d.src1, w, a, n);
    } else {
      InnerOfNothing(d.src0, d.src1, w, a);
    }
  }

  lemma InnerOfNothing(x: seq<real>, y: seq<real>, i: nat, j: nat)
    requires i <= |x| && j <= |y|
    ensures Inner(x[i..i], y[j..j]) == 0.0
  {
  }

  /** The operands of an output cell are stretches of the buffers. */
  lemma OperandsAre(c: Shape, d: Operands, e: nat, row: nat, token: nat, slot: nat)
    requires d.Fits(c) && e < c.nExpert && row < c.m && token < c.nTokens && c.bNe1 > 0 && c.k > 0
    ensures var w, a := d.Cell0(e, row, 0), d.Cell1(token, LaneOf(c, slot), 0);
            && w + c.k <= |d.src0| && a + c.k <= |d.src1|
            && (forall k: nat {:trigger d.Weight(e, row, k)} :: k < c.k ==> d.Weight(e, row, k) == d.src0[w + k])
            && (forall k: nat {:trigger d.Activation(token, LaneOf(c, slot), k)} :: k < c.k ==>
                  d.Activation(token, LaneOf(c, slot), k) == d.src1[a + k])
  {
    hide LaneOf;
    assert d.Cell0(e, row, c.k - 1) < |d.src0| && d.Cell1(token, LaneOf(c, slot), c.k - 1) < |d.src1|;
  }

  /** A buffer that holds the naive product in every output cell is the product written out. */
  lemma NaiveIsProduct(c: Shape, r: Routing, d: Operands, dst: seq<real>, row: nat, token: nat, lane: nat, turn: nat)
    requires c.Valid() && r.Valid(c) && d.Fits(c) && |dst| >= d.offsetDst + c.Pairs() * c.m
    requires forall row: nat, slot: nat, token: nat {:trigger DstCell(c, d, row, slot, token)} ::
               row < c.m && slot < c.nUsed && token < c.nTokens && DstCell(c, d, row, slot, token) < |dst| ==>
                 dst[DstCell(c, d, row, slot, token)] == Naive(c, r, d, row, slot, token)
    ensures CellIs(c, r, d, dst, row, token, lane, turn)
  {
    hide Dot, Inner, Operands.Fits, Operands.Weight, Operands.Activation;
    var slot := Index(lane, turn, c.bNe1);
    if row < c.m && token < c.nTokens && lane < c.bNe1 && slot < c.nUsed {
      DivModUnique(slot, turn, lane, c.bNe1);
      DstCellInBounds(c, d, row, slot, token);
      assert 0 <= r.At(token, slot) < c.nExpert;
      if c.k > 0 {
        OperandsAre(c, d, r.At(token, slot), row, token, slot);
        DotIsInner(c, d, r.At(token, slot), row, token, slot, d.Cell0(r.At(token, slot), row, 0), d.Cell1(token, lane, 0), c.k);
      } else {
        NoTerms(c, d, r.At(token, slot), row, token, slot);
      }
    }
  }

  lemma NoTerms(c: Shape, d: Operands, e: nat, row: nat, token: nat, slot: nat)
    requires c.bNe1 > 0
    ensures Dot(c, d, e, row, token, slot, 0) == 0.0
  {
  }
}
